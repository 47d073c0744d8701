/**
 Safety of drop insertion (crates/nexl-memory/src/lib.rs, `annotate_block`): a reference-counted machine on which
 annotated blocks run, and the blocks that never touch a freed cell.
*/
module HeapSafety {
  import opened Basics
  import opened AnfIr
  import opened DropInsertion

  // ---------------------------------------------------------------------------------------------
  // The machine
  // ---------------------------------------------------------------------------------------------

  /**
   A value: a cell allocated by this block, known by its variable and with the values stored in it, or something made
   elsewhere that holds some of this block's cells. Values are immutable, so a cell carries its contents.
  */
  datatype Val = Cell(owner: VarId, fields: seq<Val>) | Opaque(cells: set<VarId>)

  const NOTHING := Opaque({})

  /** The cells of this block that a value reaches. */
  function Owners(v: Val): set<VarId>
    decreases v
  {
    match v
    case Cell(x, fields) => {x} + OwnersAll(fields)
    case Opaque(cells) => cells
  }

  function OwnersAll(vs: seq<Val>): set<VarId>
    decreases vs
  {
    if vs == [] then {} else OwnersAll(vs[..|vs| - 1]) + Owners(vs[|vs| - 1])
  }

  type Env = map<VarId, Val>

  function Read(env: Env, a: Operand): Val {
    if a.Var? && a.id in env then env[a.id] else NOTHING
  }

  function Operands(rhs: Rhs): seq<Operand> {
    match rhs
    case Copy(a) => [a]
    case Call(callee, args) => [callee] + args
    case MakeClosure(_, captures) => Sources(captures)
    case MakeTuple(_, fields) => fields
    case Project(base, _) => [base]
  }

  function Sources(captures: seq<Capture>): (ops: seq<Operand>)
    ensures |ops| == |captures|
  {
    seq(|captures|, i requires 0 <= i < |captures| => captures[i].source)
  }

  function ReadAll(env: Env, ops: seq<Operand>): (vals: seq<Val>)
    ensures |vals| == |ops|
    ensures forall i | 0 <= i < |vals| :: vals[i] == Read(env, ops[i])
  {
    seq(|ops|, i requires 0 <= i < |ops| => Read(env, ops[i]))
  }

  /**
   How the functions this block calls behave: what each bind gets from code outside the block. A call may return an
   argument, part of an argument, or something new that stores such parts; it cannot reach other cells of the block.
  */
  type World = VarId -> Val

  function Outside(w: World, x: VarId, cells: set<VarId>): (v: Val)
    ensures Owners(v) <= cells
  {
    if Owners(w(x)) <= cells then w(x) else NOTHING
  }

  function Value(w: World, env: Env, b: LetBind): Val {
    match b.rhs
    case Copy(a) => Read(env, a)
    case Call(_, _) => Outside(w, b.v, OwnersAll(ReadAll(env, Operands(b.rhs))))
    case MakeClosure(_, _) => Cell(b.v, ReadAll(env, Operands(b.rhs)))
    case MakeTuple(_, _) => Cell(b.v, ReadAll(env, Operands(b.rhs)))
    case Project(base, index) =>
      match Read(env, base)
      case Cell(_, fields) => if index < |fields| then fields[index] else NOTHING
      case Opaque(cells) => Outside(w, b.v, cells)
  }

  /** Reference counts of this block's cells, and its variables. */
  datatype State = State(counts: map<VarId, nat>, env: Env)

  const INITIAL := State(map[], map[])

  /** Every cell the value reaches is allocated and not freed. */
  predicate Live(counts: map<VarId, nat>, v: Val) {
    forall x <- Owners(v) :: x in counts && counts[x] > 0
  }

  predicate AllLive(counts: map<VarId, nat>, vs: seq<Val>) {
    forall i | 0 <= i < |vs| :: Live(counts, vs[i])
  }

  /** One step; `None` is a fault: an operand that reaches a freed cell, or a count operation on one. */
  function Step(w: World, st: State, step: RcStep): Option<State> {
    match step
    case Bind(b) =>
      if !AllLive(st.counts, ReadAll(st.env, Operands(b.rhs))) then None
      else
        Some(State(if IsHeapAlloc(b.rhs) then st.counts[b.v := 1] else st.counts, st.env[b.v := Value(w, st.env, b)]))
    case Rc(Dup(v)) => Count(st, v, 1)
    case Rc(Drop(v)) => Count(st, v, -1)
  }

  function Count(st: State, v: VarId, delta: int): Option<State>
    requires delta == 1 || delta == -1
  {
    match Read(st.env, Var(v))
    case Opaque(_) => Some(st)
    case Cell(x, _) =>
      if x !in st.counts || st.counts[x] == 0 then None else Some(st.(counts := st.counts[x := st.counts[x] + delta]))
  }

  function Run(w: World, st: State, steps: seq<RcStep>): Option<State> {
    if steps == [] then Some(st)
    else
      match Run(w, st, steps[..|steps| - 1])
      case None => None
      case Some(before) => Step(w, before, steps[|steps| - 1])
  }

  /** The variables a tail mentions, in any of its branches. */
  function TailVars(tail: Tail): set<VarId> {
    match tail
    case Return(a) => OperandVars([a])
    case If(cond, thenBlock, elseBlock) => OperandVars([cond]) + BlockVars(thenBlock) + BlockVars(elseBlock)
    case TailCall(callee, args) => OperandVars([callee] + args)
    case Match(scrutinee, arms) => OperandVars([scrutinee]) + ArmsVars(arms)
    case Panic(message) => OperandVars([message])
    case Loop(vars, body) => OperandVars(Sources(vars)) + BlockVars(body)
    case Recur(args) => OperandVars(args)
  }

  function BlockVars(b: Block): set<VarId> {
    BindsVars(b.binds) + TailVars(b.tail)
  }

  function ArmsVars(arms: seq<MatchArm>): set<VarId> {
    if arms == [] then {} else BlockVars(arms[0].body) + ArmsVars(arms[1..])
  }

  function BindsVars(binds: seq<LetBind>): set<VarId> {
    if binds == [] then {} else OperandVars(Operands(binds[0].rhs)) + BindsVars(binds[1..])
  }

  function OperandVars(ops: seq<Operand>): set<VarId> {
    set i | 0 <= i < |ops| && ops[i].Var? :: ops[i].id
  }

  /** Nothing the tail can reach is freed. */
  predicate TailSafe(st: State, tail: Tail) {
    forall x <- TailVars(tail) :: x in st.env ==> Live(st.counts, st.env[x])
  }

  /** The block runs without a fault and its tail only reaches live cells. */
  predicate HeapSafe(w: World, block: RcBlock) {
    var end := Run(w, INITIAL, block.steps);
    end.Some? && TailSafe(end.value, block.tail)
  }

  // ---------------------------------------------------------------------------------------------
  // Running the annotated block
  // ---------------------------------------------------------------------------------------------

  /** The variables after the binds. */
  function Values(w: World, binds: seq<LetBind>): Env {
    if binds == [] then map[]
    else
      var env, last := Values(w, binds[..|binds| - 1]), binds[|binds| - 1];
      env[last.v := Value(w, env, last)]
  }

  /** One reference to each cell. */
  function Once(vars: seq<VarId>): map<VarId, nat> {
    map x | x in vars :: 1
  }

  ghost predicate Within(env: Env, vars: seq<VarId>) {
    forall x <- env :: forall y <- Owners(env[x]) :: y in vars
  }

  lemma {:induction false} HeapVarsBound(binds: seq<LetBind>, x: VarId)
    requires x in HeapVars(binds)
    ensures exists i :: 0 <= i < |binds| && binds[i].v == x
  {
    var init, last := binds[..|binds| - 1], binds[|binds| - 1];
    if x in HeapVars(init) {
      HeapVarsBound(init, x);
      var i :| 0 <= i < |init| && init[i].v == x;
      assert binds[i].v == x;
    } else {
      assert binds[|binds| - 1].v == x;
    }
  }

  lemma LastFresh(binds: seq<LetBind>)
    requires binds != [] && SingleAssignment(binds)
    ensures binds[|binds| - 1].v !in HeapVars(binds[..|binds| - 1])
  {
    hide HeapVars;
    var init := binds[..|binds| - 1];
    forall x | x in HeapVars(init)
      ensures x != binds[|binds| - 1].v
    {
      HeapVarsBound(init, x);
      var i :| 0 <= i < |init| && init[i].v == x;
      assert binds[i] == init[i];
    }
  }

  lemma {:induction false} OwnersInside(vs: seq<Val>, vars: seq<VarId>)
    requires forall i | 0 <= i < |vs| :: forall y <- Owners(vs[i]) :: y in vars
    ensures forall y <- OwnersAll(vs) :: y in vars
    decreases |vs|
  {
    hide Owners;
    if vs != [] { OwnersInside(vs[..|vs| - 1], vars); }
  }

  lemma {:induction false} OwnersAllHas(vs: seq<Val>, i: nat)
    requires i < |vs|
    ensures Owners(vs[i]) <= OwnersAll(vs)
    decreases |vs|
  {
    hide Owners;
    if i < |vs| - 1 { OwnersAllHas(vs[..|vs| - 1], i); }
  }

  /** Every bind finds its operands live, and reaches only cells allocated so far. */
  lemma {:induction false} RunBinds(w: World, binds: seq<LetBind>)
    requires SingleAssignment(binds)
    ensures Run(w, INITIAL, Binds(binds)) == Some(State(Once(HeapVars(binds)), Values(w, binds)))
    ensures Within(Values(w, binds), HeapVars(binds))
  {
    hide Value, Owners, Operands;
    if binds == [] {
      assert Once([]) == map[];
    } else {
      var init, last := binds[..|binds| - 1], binds[|binds| - 1];
      RunBinds(w, init);
      assert Binds(binds)[..|binds| - 1] == Binds(init);
      var env, vars := Values(w, init), HeapVars(init);
      BindStep(w, env, vars, last);
      assert Once(HeapVars(binds)) == if IsHeapAlloc(last.rhs) then Once(vars)[last.v := 1] else Once(vars);
    }
  }

  lemma BindStep(w: World, env: Env, vars: seq<VarId>, b: LetBind)
    requires Within(env, vars)
    ensures AllLive(Once(vars), ReadAll(env, Operands(b.rhs)))
    ensures Within(env[b.v := Value(w, env, b)], vars + if IsHeapAlloc(b.rhs) then [b.v] else [])
  {
    var vals := ReadAll(env, Operands(b.rhs));
    forall i | 0 <= i < |vals| ensures forall y <- Owners(vals[i]) :: y in vars { }
    OwnersInside(vals, vars);
    hide Owners;
    ValueOwners(w, env, vars, b);
  }

  lemma ValueOwners(w: World, env: Env, vars: seq<VarId>, b: LetBind)
    requires Within(env, vars) && forall y <- OwnersAll(ReadAll(env, Operands(b.rhs))) :: y in vars
    ensures forall y <- Owners(Value(w, env, b)) :: y in vars || (IsHeapAlloc(b.rhs) && y == b.v)
  {
    match b.rhs
    case Project(base, index) =>
      var v := Read(env, base);
      if v.Cell? && index < |v.fields| { OwnersAllHas(v.fields, index); }
    case _ =>
  }

  predicate Distinct(vars: seq<VarId>) {
    forall i, j | 0 <= i < j < |vars| :: vars[i] != vars[j]
  }

  lemma {:induction false} HeapVarsDistinct(binds: seq<LetBind>)
    requires SingleAssignment(binds)
    ensures Distinct(HeapVars(binds))
  {
    hide IsHeapAlloc;
    if binds != [] {
      var init, last := binds[..|binds| - 1], binds[|binds| - 1];
      HeapVarsDistinct(init);
      LastFresh(binds);
    }
  }

  lemma {:induction false} HeapVarIsCell(w: World, binds: seq<LetBind>, x: VarId)
    requires SingleAssignment(binds) && x in HeapVars(binds)
    ensures x in Values(w, binds) && Values(w, binds)[x].Cell? && Values(w, binds)[x].owner == x
  {
    var init, last := binds[..|binds| - 1], binds[|binds| - 1];
    if x in HeapVars(init) {
      HeapVarIsCell(w, init, x);
      LastFresh(binds);
    }
  }

  lemma {:induction false} RunConcat(w: World, st: State, a: seq<RcStep>, b: seq<RcStep>)
    ensures Run(w, st, a + b) == match Run(w, st, a) case None => None case Some(mid) => Run(w, mid, b)
  {
    hide Step;
    if b == [] {
      assert a + b == a;
    } else {
      assert (a + b)[..|a + b| - 1] == a + b[..|b| - 1];
      RunConcat(w, st, a, b[..|b| - 1]);
    }
  }

  /** The counts when the first `k` variables have been considered for dropping. */
  function CountsAfter(vars: seq<VarId>, k: nat, returned: Option<VarId>): map<VarId, nat>
    requires k <= |vars|
  {
    map x | x in vars :: if x in vars[..k] && Some(x) != returned then 0 else 1
  }

  /** Every drop finds its cell live: nothing is freed twice. */
  lemma {:induction false} RunDrops(w: World, env: Env, vars: seq<VarId>, k: nat, returned: Option<VarId>)
    requires Distinct(vars) && k <= |vars|
    requires forall x <- vars :: x in env && env[x].Cell? && env[x].owner == x
    ensures Run(w, State(Once(vars), env), Drops(vars[..k], returned)) ==
            Some(State(CountsAfter(vars, k, returned), env))
  {
    hide Distinct, Step, CountsAfter;
    if k == 0 {
      assert Drops(vars[..0], returned) == [];
      NoCounts(vars, returned);
    } else {
      RunDrops(w, env, vars, k - 1, returned);
      var before, last := Drops(vars[..k - 1], returned), vars[k - 1];
      assert vars[..k][..k - 1] == vars[..k - 1];
      CountsStep(vars, k, returned);
      DropOne(w, CountsAfter(vars, k - 1, returned), env, last);
      if Some(last) != returned {
        assert Drops(vars[..k], returned) == before + [Rc(Drop(last))];
        assert (before + [Rc(Drop(last))])[..|before|] == before;
      } else {
        assert Drops(vars[..k], returned) == before;
      }
    }
  }

  lemma NoCounts(vars: seq<VarId>, returned: Option<VarId>)
    ensures CountsAfter(vars, 0, returned) == Once(vars)
  {
  }

  lemma DropOne(w: World, counts: map<VarId, nat>, env: Env, x: VarId)
    requires x in env && env[x].Cell? && env[x].owner == x && x in counts && counts[x] == 1
    ensures Step(w, State(counts, env), Rc(Drop(x))) == Some(State(counts[x := 0], env))
  {
  }

  lemma CountsStep(vars: seq<VarId>, k: nat, returned: Option<VarId>)
    requires Distinct(vars) && 0 < k <= |vars|
    ensures var was, last := CountsAfter(vars, k - 1, returned), vars[k - 1];
            last in was && was[last] == 1 &&
            CountsAfter(vars, k, returned) == if Some(last) != returned then was[last := 0] else was
  {
    var was, last := CountsAfter(vars, k - 1, returned), vars[k - 1];
    assert last !in vars[..k - 1];
    assert forall x :: x in vars[..k] <==> x in vars[..k - 1] || x == last by {
      assert vars[..k] == vars[..k - 1] + [last];
    }
  }

  /** The counts when the tail starts. */
  function FinalCounts(block: Block): map<VarId, nat> {
    map x | x in HeapVars(block.binds) :: if Some(x) == Returned(block.tail) then 1 else 0
  }

  /**
   Whatever the called functions do, the steps of the annotated block never fault. They free every cell of the block
   exactly once except the returned one, which stays live.
  */
  lemma DropsFreeAllButReturned(w: World, block: Block)
    requires SingleAssignment(block.binds)
    ensures Run(w, INITIAL, Annotated(block).steps) == Some(State(FinalCounts(block), Values(w, block.binds)))
  {
    hide Values, HeapVars, Run, Drops, Within, Binds, CountsAfter, FinalCounts, Returned;
    var binds, vars, returned := block.binds, HeapVars(block.binds), Returned(block.tail);
    RunBinds(w, binds);
    HeapVarsDistinct(binds);
    forall x | x in vars ensures x in Values(w, binds) && Values(w, binds)[x].Cell? && Values(w, binds)[x].owner == x {
      HeapVarIsCell(w, binds, x);
    }
    RunDrops(w, Values(w, binds), vars, |vars|, returned);
    assert vars[..|vars|] == vars;
    RunConcat(w, INITIAL, Binds(binds), Drops(vars, returned));
    AllCounted(block);
  }

  lemma AllCounted(block: Block)
    ensures var vars := HeapVars(block.binds); CountsAfter(vars, |vars|, Returned(block.tail)) == FinalCounts(block)
  {
    var vars := HeapVars(block.binds);
    assert vars[..|vars|] == vars;
  }

  lemma TailKept(block: Block)
    ensures Annotated(block).tail == block.tail
  {
  }

  /** Exactly the returned allocation is live when the tail starts, or none. */
  lemma OnlyReturnedLive(w: World, block: Block)
    requires SingleAssignment(block.binds)
    ensures var end := Run(w, INITIAL, Annotated(block).steps);
            end.Some? && forall x ::
              x in end.value.counts && end.value.counts[x] > 0 <==>
                x in HeapVars(block.binds) && Some(x) == Returned(block.tail)
  {
    hide Run, HeapVars, Annotated, Values;
    DropsFreeAllButReturned(w, block);
  }

  // ---------------------------------------------------------------------------------------------
  // What the variables may hold
  // ---------------------------------------------------------------------------------------------

  /** A static account of a bind: a call may yield anything made of the cells its operands reach. */
  function MayYield(env: Env, b: LetBind): Val {
    match b.rhs
    case Copy(a) => Read(env, a)
    case Call(_, _) => Opaque(OwnersAll(ReadAll(env, Operands(b.rhs))))
    case MakeClosure(_, _) => Cell(b.v, ReadAll(env, Operands(b.rhs)))
    case MakeTuple(_, _) => Cell(b.v, ReadAll(env, Operands(b.rhs)))
    case Project(base, index) =>
      match Read(env, base)
      case Cell(_, fields) => if index < |fields| then fields[index] else NOTHING
      case Opaque(cells) => Opaque(cells)
  }

  function MayHold(binds: seq<LetBind>): Env {
    if binds == [] then map[]
    else
      var env, last := MayHold(binds[..|binds| - 1]), binds[|binds| - 1];
      env[last.v := MayYield(env, last)]
  }

  /** No variable the tail mentions may hold a cell other than the returned one. Calls pass on what they are given. */
  predicate TailClean(block: Block) {
    forall x <- TailVars(block.tail) :: x in MayHold(block.binds) ==>
      forall y <- Owners(MayHold(block.binds)[x]) :: Some(y) == Returned(block.tail)
  }

  /** `v` is one of the values that `may` stands for. */
  predicate Covered(v: Val, may: Val)
    decreases may
  {
    match may
    case Opaque(cells) => Owners(v) <= cells
    case Cell(x, fields) => v.Cell? && v.owner == x && AllCovered(v.fields, fields)
  }

  predicate AllCovered(vs: seq<Val>, may: seq<Val>)
    decreases may, 0
  {
    |vs| == |may| && forall i | 0 <= i < |may| :: Covered(vs[i], may[i])
  }

  lemma {:induction false} CoveredOwners(v: Val, may: Val)
    requires Covered(v, may)
    ensures Owners(v) <= Owners(may)
    decreases may
  {
    if may.Cell? { AllCoveredOwners(v.fields, may.fields, |may.fields|); }
  }

  lemma {:induction false} AllCoveredOwners(vs: seq<Val>, may: seq<Val>, n: nat)
    requires AllCovered(vs, may) && n <= |may|
    ensures OwnersAll(vs[..n]) <= OwnersAll(may[..n])
    ensures n == |may| ==> OwnersAll(vs) <= OwnersAll(may)
    decreases may, n
  {
    hide Owners, Covered;
    if n == |may| { assert vs[..n] == vs && may[..n] == may; }
    if n > 0 {
      AllCoveredOwners(vs, may, n - 1);
      CoveredOwners(vs[n - 1], may[n - 1]);
      assert vs[..n][..n - 1] == vs[..n - 1] && may[..n][..n - 1] == may[..n - 1];
    }
  }

  ghost predicate EnvCovered(env: Env, may: Env) {
    env.Keys == may.Keys && forall x <- env :: Covered(env[x], may[x])
  }

  /** Whatever the called functions do, every variable holds something the static account allows. */
  lemma {:induction false} MayHoldSound(w: World, binds: seq<LetBind>)
    ensures EnvCovered(Values(w, binds), MayHold(binds))
  {
    hide Covered, Value, MayYield;
    if binds != [] {
      var init, last := binds[..|binds| - 1], binds[|binds| - 1];
      MayHoldSound(w, init);
      MayYieldSound(w, Values(w, init), MayHold(init), last);
    }
  }

  lemma ReadCovered(env: Env, may: Env, a: Operand)
    requires EnvCovered(env, may)
    ensures Covered(Read(env, a), Read(may, a))
  {
  }

  lemma MayYieldSound(w: World, env: Env, may: Env, b: LetBind)
    requires EnvCovered(env, may)
    ensures Covered(Value(w, env, b), MayYield(may, b))
  {
    var ops := Operands(b.rhs);
    forall i | 0 <= i < |ops| ensures Covered(ReadAll(env, ops)[i], ReadAll(may, ops)[i]) {
      ReadCovered(env, may, ops[i]);
    }
    AllCoveredOwners(ReadAll(env, ops), ReadAll(may, ops), |ops|);
    match b.rhs
    case Copy(a) => ReadCovered(env, may, a);
    case Project(base, index) =>
      ReadCovered(env, may, base);
      PartCovered(Read(env, base), Read(may, base), index);
    case _ =>
  }

  lemma PartCovered(v: Val, may: Val, index: nat)
    requires Covered(v, may)
    ensures may.Cell? && index < |may.fields| ==>
            v.Cell? && index < |v.fields| && Covered(v.fields[index], may.fields[index])
    ensures may.Cell? ==> v.Cell? && |v.fields| == |may.fields|
    ensures may.Opaque? && v.Cell? && index < |v.fields| ==> Owners(v.fields[index]) <= may.cells
    ensures may.Opaque? ==> Owners(v) <= may.cells
  {
    if v.Cell? && index < |v.fields| { OwnersAllHas(v.fields, index); }
  }

  /** The functions that pass on everything they are given. */
  function Worst(binds: seq<LetBind>): World {
    var may := MayHold(binds);
    x => if x in may then may[x] else NOTHING
  }

  /** The static account is not too wide: called functions that pass on everything make it come true. */
  lemma {:induction false} MayHoldReached(w: World, binds: seq<LetBind>)
    requires SingleAssignment(binds) && forall x <- MayHold(binds) :: w(x) == MayHold(binds)[x]
    ensures Values(w, binds) == MayHold(binds)
  {
    hide Value, MayYield, Owners;
    if binds != [] {
      var init, last := binds[..|binds| - 1], binds[|binds| - 1];
      assert forall i | 0 <= i < |init| :: init[i] == binds[i];
      NotHeld(init, last.v);
      MayHoldReached(w, init);
      assert w(last.v) == MayYield(MayHold(init), last);
      YieldReached(w, MayHold(init), last);
    }
  }

  lemma {:induction false} NotHeld(binds: seq<LetBind>, x: VarId)
    requires forall i | 0 <= i < |binds| :: binds[i].v != x
    ensures x !in MayHold(binds)
  {
    hide MayYield;
    if binds != [] { NotHeld(binds[..|binds| - 1], x); }
  }

  lemma YieldReached(w: World, env: Env, b: LetBind)
    requires w(b.v) == MayYield(env, b)
    ensures Value(w, env, b) == MayYield(env, b)
  {
  }

  // ---------------------------------------------------------------------------------------------
  // Safety
  // ---------------------------------------------------------------------------------------------

  /**
   Drop insertion is heap-safe for every behaviour of the called functions exactly on the blocks with a clean tail.
  */
  lemma DropInsertionSafe(block: Block)
    requires SingleAssignment(block.binds)
    ensures (forall w: World :: HeapSafe(w, Annotated(block))) <==> TailClean(block)
  {
    hide HeapSafe, TailClean;
    if TailClean(block) {
      forall w: World ensures HeapSafe(w, Annotated(block)) { CleanIsSafe(w, block); }
    } else {
      UncleanIsUnsafe(block);
    }
  }

  lemma CleanIsSafe(w: World, block: Block)
    requires SingleAssignment(block.binds) && TailClean(block)
    ensures HeapSafe(w, Annotated(block))
  {
    DropsFreeAllButReturned(w, block);
    RunBinds(w, block.binds);
    MayHoldSound(w, block.binds);
    hide Run, Values, MayHold, TailVars, Owners, HeapVars, Covered, Binds;
    forall x | x in TailVars(block.tail) && x in Values(w, block.binds)
      ensures Live(FinalCounts(block), Values(w, block.binds)[x])
    {
      CoveredOwners(Values(w, block.binds)[x], MayHold(block.binds)[x]);
    }
  }

  /** A tail that is not clean is unsafe for functions that pass on everything they are given. */
  lemma UncleanIsUnsafe(block: Block)
    requires SingleAssignment(block.binds) && !TailClean(block)
    ensures !HeapSafe(Worst(block.binds), Annotated(block))
  {
    var w := Worst(block.binds);
    MayHoldReached(w, block.binds);
    DropsFreeAllButReturned(w, block);
    hide Run, Values, MayHold, TailVars, Owners, HeapVars;
    var x :| x in TailVars(block.tail) && x in MayHold(block.binds) &&
      exists y :: y in Owners(MayHold(block.binds)[x]) && Some(y) != Returned(block.tail);
    assert !Live(FinalCounts(block), Values(w, block.binds)[x]);
  }

  /** No heap variable is copied, stored, projected out of or passed to a call. */
  predicate Unshared(binds: seq<LetBind>) {
    forall i, j | 0 <= i < |binds| && 0 <= j < |binds| && IsHeapAlloc(binds[j].rhs) ::
      Var(binds[j].v) !in Operands(binds[i].rhs)
  }

  /** Without sharing, a variable may hold only its own cell. */
  lemma {:induction false} UnsharedHolds(binds: seq<LetBind>)
    requires SingleAssignment(binds) && Unshared(binds)
    ensures forall x <- MayHold(binds) ::
              Owners(MayHold(binds)[x]) <= {x} && (x !in HeapVars(binds) ==> Owners(MayHold(binds)[x]) == {})
  {
    if binds != [] {
      var init, last := binds[..|binds| - 1], binds[|binds| - 1];
      assert forall i | 0 <= i < |init| :: init[i] == binds[i];
      UnsharedHolds(init);
      var may := MayHold(init);
      forall a | a in Operands(last.rhs) ensures Owners(Read(may, a)) == {} { UnsharedOperand(binds, may, a); }
      hide Unshared, MayHold, HeapVars, Owners;
      UnsharedYields(may, last);
    }
  }

  lemma {:induction false} NotHeapVar(binds: seq<LetBind>, x: VarId)
    requires forall i | 0 <= i < |binds| && IsHeapAlloc(binds[i].rhs) :: binds[i].v != x
    ensures x !in HeapVars(binds)
  {
    hide IsHeapAlloc;
    if binds != [] { NotHeapVar(binds[..|binds| - 1], x); }
  }

  lemma UnsharedOperand(binds: seq<LetBind>, may: Env, a: Operand)
    requires binds != [] && Unshared(binds) && a in Operands(binds[|binds| - 1].rhs)
    requires forall x <- may :: x !in HeapVars(binds[..|binds| - 1]) ==> Owners(may[x]) == {}
    ensures Owners(Read(may, a)) == {}
  {
    hide Operands, HeapVars;
    var init := binds[..|binds| - 1];
    if a.Var? {
      assert forall i | 0 <= i < |init| && IsHeapAlloc(init[i].rhs) :: init[i] == binds[i] && init[i].v != a.id;
      NotHeapVar(init, a.id);
    }
  }

  lemma UnsharedYields(may: Env, b: LetBind)
    requires forall a | a in Operands(b.rhs) :: Owners(Read(may, a)) == {}
    ensures Owners(MayYield(may, b)) <= {b.v} && (!IsHeapAlloc(b.rhs) ==> Owners(MayYield(may, b)) == {})
  {
    var vals := ReadAll(may, Operands(b.rhs));
    forall i | 0 <= i < |vals| ensures Owners(vals[i]) == {} { assert Operands(b.rhs)[i] in Operands(b.rhs); }
    OwnersInside(vals, []);
    match b.rhs
    case Copy(a) => assert a in Operands(b.rhs);
    case Project(base, index) =>
      assert base in Operands(b.rhs);
      var v := Read(may, base);
    case _ =>
  }

  /** Blocks that return and do not share heap variables are heap-safe. */
  lemma UnsharedReturnSafe(w: World, block: Block)
    requires SingleAssignment(block.binds) && Unshared(block.binds) && block.tail.Return?
    ensures HeapSafe(w, Annotated(block))
  {
    UnsharedHolds(block.binds);
    hide HeapSafe, MayHold, Unshared, Owners, HeapVars;
    forall x | x in TailVars(block.tail) && x in MayHold(block.binds)
      ensures forall y <- Owners(MayHold(block.binds)[x]) :: Some(y) == Returned(block.tail)
    {
      ReturnVar(block.tail, x);
    }
    CleanIsSafe(w, block);
  }

  lemma ReturnVar(tail: Tail, x: VarId)
    requires tail.Return? && x in TailVars(tail)
    ensures tail.a == Var(x)
  {
  }

  /** A block that allocates a cell, gets at it under another name and returns that name. */
  function Alias(rhs: Rhs): Block {
    Block([LetBind(0, MakeTuple("A", [])), LetBind(1, rhs)], Return(Var(1)))
  }

  lemma AliasedReturnUnsafe(w: World, rhs: Rhs)
    requires !IsHeapAlloc(rhs) && Value(w, map[0 := Cell(0, [])], LetBind(1, rhs)) == Cell(0, [])
    ensures !HeapSafe(w, Annotated(Alias(rhs)))
  {
    hide Value, Run, Annotated;
    var block, b0, b1 := Alias(rhs), LetBind(0, MakeTuple("A", [])), LetBind(1, rhs);
    DropsFreeAllButReturned(w, block);
    TailKept(block);
    var binds := block.binds;
    assert binds[..1] == [b0] && [b0][..0] == [];
    assert HeapVars([b0]) == HeapVars([]) + [0];
    assert HeapVars(binds) == HeapVars([b0]) + [];
    assert Values(w, [b0]) == Values(w, [])[0 := Value(w, Values(w, []), b0)];
    EmptyTuple(w, b0);
    assert Values(w, binds)[1] == Cell(0, []);
    assert 0 in Owners(Cell(0, [])) && FinalCounts(block)[0] == 0;
    assert !Live(FinalCounts(block), Values(w, binds)[1]);
    assert 1 in TailVars(block.tail) by { assert [Var(1)][0] == Var(1); }
  }

  lemma EmptyTuple(w: World, b: LetBind)
    requires b == LetBind(0, MakeTuple("A", []))
    ensures Value(w, map[], b) == Cell(0, [])
  {
  }

  /**
   Returning a copy of a heap variable is not safe, whatever other functions do: the cell is dropped under the alias.
  */
  lemma CopiedReturnUnsafe(w: World)
    ensures !HeapSafe(w, Annotated(Alias(Copy(Var(0)))))
  {
    AliasedReturnUnsafe(w, Copy(Var(0)));
  }

  /**
   Returning the result of a call is not safe when the called function returns its argument: the cell is dropped before
   the tail, and the called function does not keep it alive, since it allocates nothing and so has no count operations.
  */
  lemma ReturnedByCallUnsafe(w: World, param: VarId)
    requires w(1) == Cell(0, [])
    ensures Annotated(Block([], Return(Var(param)))).steps == []
    ensures !HeapSafe(w, Annotated(Alias(Call(FuncRef(0), [Var(0)]))))
  {
    var env, call := map[0 := Cell(0, [])], Call(FuncRef(0), [Var(0)]);
    var vals := ReadAll(env, Operands(call));
    assert vals[1] == Cell(0, []);
    OwnersAllHas(vals, 1);
    assert Owners(w(1)) <= OwnersAll(vals);
    AliasedReturnUnsafe(w, call);
  }
}
