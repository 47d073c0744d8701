/**
 Drop insertion (crates/nexl-memory/src/lib.rs, `annotate_block`, `DupDropPass`) and its composition with reuse
 analysis.
*/
module DropInsertion {
  import opened Basics
  import opened AnfIr
  import opened ReuseAnalysis

  // ---------------------------------------------------------------------------------------------
  // The pass
  // ---------------------------------------------------------------------------------------------

  /** The heap-allocated variables, in bind order. */
  function HeapVars(binds: seq<LetBind>): seq<VarId> {
    if binds == [] then []
    else
      var last := binds[|binds| - 1];
      HeapVars(binds[..|binds| - 1]) + if IsHeapAlloc(last.rhs) then [last.v] else []
  }

  function Returned(tail: Tail): Option<VarId> {
    match tail
    case Return(Var(v)) => Some(v)
    case _ => None
  }

  function Drops(vars: seq<VarId>, returned: Option<VarId>): seq<RcStep> {
    if vars == [] then []
    else
      var last := vars[|vars| - 1];
      Drops(vars[..|vars| - 1], returned) + if Some(last) != returned then [Rc(Drop(last))] else []
  }

  function Binds(binds: seq<LetBind>): (steps: seq<RcStep>)
    ensures |steps| == |binds|
  {
    seq(|binds|, i requires 0 <= i < |binds| => Bind(binds[i]))
  }

  function Annotated(block: Block): RcBlock {
    RcBlock(Binds(block.binds) + Drops(HeapVars(block.binds), Returned(block.tail)), block.tail)
  }

  /** `annotate_block`. */
  method AnnotateBlock(block: Block) returns (result: RcBlock)
    ensures result == Annotated(block)
  {
    var heapVars: seq<VarId>, steps: seq<RcStep> := [], [];
    for i := 0 to |block.binds|
      invariant heapVars == HeapVars(block.binds[..i])
      invariant steps == Binds(block.binds[..i])
    {
      assert block.binds[..i + 1][..i] == block.binds[..i];
      if IsHeapAlloc(block.binds[i].rhs) {
        heapVars := heapVars + [block.binds[i].v];
      }
      steps := steps + [Bind(block.binds[i])];
    }
    assert block.binds[..|block.binds|] == block.binds;
    var returned := Returned(block.tail);
    for i := 0 to |heapVars|
      invariant steps == Binds(block.binds) + Drops(heapVars[..i], returned)
    {
      assert heapVars[..i + 1][..i] == heapVars[..i];
      if Some(heapVars[i]) != returned {
        steps := steps + [Rc(Drop(heapVars[i]))];
      }
    }
    assert heapVars[..|heapVars|] == heapVars;
    result := RcBlock(steps, block.tail);
  }

  function AnnotatedFunc(f: FuncDef): RcFunc {
    RcFunc(f.id, f.name, f.params, Annotated(f.body))
  }

  function AnnotatedModule(m: Module): RcModule {
    RcModule(m.name, seq(|m.funcs|, i requires 0 <= i < |m.funcs| => AnnotatedFunc(m.funcs[i])))
  }

  /** `DupDropPass::run`. */
  method DupDropPassRun(m: Module) returns (result: RcModule)
    ensures result == AnnotatedModule(m)
  {
    var funcs: seq<RcFunc> := [];
    for i := 0 to |m.funcs|
      invariant |funcs| == i && forall j | 0 <= j < i :: funcs[j] == AnnotatedFunc(m.funcs[j])
    {
      var body := AnnotateBlock(m.funcs[i].body);
      funcs := funcs + [RcFunc(m.funcs[i].id, m.funcs[i].name, m.funcs[i].params, body)];
    }
    assert funcs == AnnotatedModule(m).funcs;
    result := RcModule(m.name, funcs);
  }

  /** Forgetting the reference-count operations. */
  function EraseSteps(steps: seq<RcStep>): seq<LetBind> {
    if steps == [] then []
    else
      EraseSteps(steps[..|steps| - 1]) + match steps[|steps| - 1] case Bind(b) => [b] case Rc(_) => []
  }

  function Erase(b: RcBlock): Block {
    Block(EraseSteps(b.steps), b.tail)
  }

  lemma {:induction false} EraseConcat(a: seq<RcStep>, b: seq<RcStep>)
    ensures EraseSteps(a + b) == EraseSteps(a) + EraseSteps(b)
  {
    if b == [] {
      assert a + b == a;
    } else {
      assert (a + b)[..|a + b| - 1] == a + b[..|b| - 1];
      EraseConcat(a, b[..|b| - 1]);
    }
  }

  lemma {:induction false} EraseBinds(binds: seq<LetBind>)
    ensures EraseSteps(Binds(binds)) == binds
  {
    if binds != [] {
      EraseBinds(binds[..|binds| - 1]);
      assert Binds(binds)[..|binds| - 1] == Binds(binds[..|binds| - 1]);
    }
  }

  lemma {:induction false} EraseDrops(vars: seq<VarId>, returned: Option<VarId>)
    ensures EraseSteps(Drops(vars, returned)) == []
  {
    if vars != [] {
      var before, last := Drops(vars[..|vars| - 1], returned), Rc(Drop(vars[|vars| - 1]));
      EraseDrops(vars[..|vars| - 1], returned);
      EraseConcat(before, [last]);
      assert [last][..0] == [];
      assert Drops(vars, returned) == before || Drops(vars, returned) == before + [last];
    }
  }

  /** Erasing the inserted operations gives back the original block. */
  lemma EraseInverts(block: Block)
    ensures Erase(Annotated(block)) == block
  {
    EraseConcat(Binds(block.binds), Drops(HeapVars(block.binds), Returned(block.tail)));
    EraseBinds(block.binds);
    EraseDrops(HeapVars(block.binds), Returned(block.tail));
  }

  // ---------------------------------------------------------------------------------------------
  // Composition with reuse analysis
  // ---------------------------------------------------------------------------------------------

  lemma {:induction false} DropsAreDrops(vars: seq<VarId>, returned: Option<VarId>)
    ensures forall i | 0 <= i < |Drops(vars, returned)| :: Drops(vars, returned)[i].Rc?
  {
    if vars != [] { DropsAreDrops(vars[..|vars| - 1], returned); }
  }

  /** Every inserted drop comes after every bind, so no allocation finds a dropped cell. */
  lemma {:induction false} NothingChosen(steps: seq<RcStep>, n: nat, k: nat)
    requires n <= |steps| && k <= |steps|
    requires forall i | 0 <= i < |steps| :: steps[i].Bind? <==> i < n
    ensures Greedy(steps, k).chosen == map[]
    ensures k <= n ==> Greedy(steps, k).available == []
  {
    hide SlotCounts;
    if k > 0 {
      NothingChosen(steps, n, k - 1);
      assert steps[k - 1].Bind? <==> k - 1 < n;
    }
  }

  lemma {:induction false} NothingRecorded(steps: seq<RcStep>, n: nat, m: ReuseMap, k: nat)
    requires n <= |steps| && k <= |steps|
    requires forall i | 0 <= i < |steps| :: steps[i].Bind? <==> i < n
    ensures Recorded(steps, m, k) == m
  {
    hide SlotCounts, DropSize;
    if k > 0 {
      NothingRecorded(steps, n, m, k - 1);
      NothingChosen(steps, n, k);
    }
  }

  /** Reuse analysis of the output of drop insertion finds nothing. */
  lemma {:induction false} ReuseAfterDropsIsEmpty(m: Module, k: nat)
    requires k <= |m.funcs|
    ensures ReuseAll(AnnotatedModule(m).funcs[..k]) == map[]
  {
    hide Recorded;
    if k > 0 {
      ReuseAfterDropsIsEmpty(m, k - 1);
      var funcs := AnnotatedModule(m).funcs[..k];
      assert funcs[..k - 1] == AnnotatedModule(m).funcs[..k - 1];
      var block := m.funcs[k - 1].body;
      DropsAreDrops(HeapVars(block.binds), Returned(block.tail));
      NothingRecorded(Annotated(block).steps, |block.binds|, map[], |Annotated(block).steps|);
    }
  }

  lemma PassComposition(m: Module)
    ensures ReuseAll(AnnotatedModule(m).funcs) == map[]
  {
    ReuseAfterDropsIsEmpty(m, |m.funcs|);
    assert AnnotatedModule(m).funcs[..|m.funcs|] == AnnotatedModule(m).funcs;
  }
}
