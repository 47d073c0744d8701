/**
 The ANF intermediate representation (crates/nexl-ir/src/lib.rs) and its RC-annotated form
 (crates/nexl-memory/src/lib.rs).
*/
module AnfIr {
  import opened Basics

  type VarId = nat

  datatype Operand =
    | Var(id: VarId)
    | Int(n: int)
    | Float(digits: string)
    | Bool(b: bool)
    | Unit
    | Str(s: string)
    | FuncRef(func: nat)

  datatype Capture = Capture(slot: VarId, source: Operand)

  datatype Rhs =
    | Copy(a: Operand)
    | Call(callee: Operand, args: seq<Operand>)
    | MakeClosure(funcId: nat, captures: seq<Capture>)
    | MakeTuple(ctor: string, fields: seq<Operand>)
    | Project(base: Operand, index: nat)

  datatype LetBind = LetBind(v: VarId, rhs: Rhs)

  datatype Block = Block(binds: seq<LetBind>, tail: Tail)

  datatype MatchArm = MatchArm(ctor: string, binds: seq<VarId>, body: Block)

  datatype Tail =
    | Return(a: Operand)
    | If(cond: Operand, thenBlock: Block, elseBlock: Block)
    | TailCall(callee: Operand, args: seq<Operand>)
    | Match(scrutinee: Operand, arms: seq<MatchArm>)
    | Panic(message: Operand)
    | Loop(vars: seq<Capture>, body: Block)
    | Recur(args: seq<Operand>)

  datatype FuncDef = FuncDef(id: nat, name: Option<string>, params: seq<VarId>, body: Block)

  datatype Module = Module(name: string, funcs: seq<FuncDef>)

  datatype RcOp = Dup(v: VarId) | Drop(v: VarId)

  datatype RcStep = Rc(op: RcOp) | Bind(bind: LetBind)

  datatype RcBlock = RcBlock(steps: seq<RcStep>, tail: Tail)

  datatype RcFunc = RcFunc(id: nat, name: Option<string>, params: seq<VarId>, body: RcBlock)

  datatype RcModule = RcModule(name: string, funcs: seq<RcFunc>)

  /** `alloc_slot_count`: the words of a heap allocation, counting the word for its tag or code. */
  function AllocSlots(rhs: Rhs): Option<nat> {
    match rhs
    case MakeTuple(_, fields) => Some(1 + |fields|)
    case MakeClosure(_, captures) => Some(1 + |captures|)
    case _ => None
  }

  /** `is_heap_alloc`. */
  predicate IsHeapAlloc(rhs: Rhs) {
    rhs.MakeTuple? || rhs.MakeClosure?
  }

  /** No variable is bound twice. */
  predicate SingleAssignment(binds: seq<LetBind>) {
    forall i, j | 0 <= i < j < |binds| :: binds[i].v != binds[j].v
  }
}
