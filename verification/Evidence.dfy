/** Evidence vectors and one-shot continuations (crates/nexl-effects/src/lib.rs). */
module Evidence {
  import opened Basics

  datatype HandlerOp<F> = Simple(f: F) | Continuation(f: F)

  /** A handler record as a value: what moving or cloning a record passes on. */
  datatype Record<F> = Record(effectName: string, operations: map<string, HandlerOp<F>>) {
    function Lookup(op: string): Option<HandlerOp<F>> {
      if op in operations then Some(operations[op]) else None
    }
  }

  class HandlerRecord<F> {
    const effectName: string
    var operations: map<string, HandlerOp<F>>

    function Contents(): Record<F>
      reads this
    {
      Record(effectName, operations)
    }

    constructor (effectName: string)
      ensures Contents() == Record(effectName, map[])
    {
      this.effectName := effectName;
      operations := map[];
    }

    method InsertOp(op: string, handler: F)
      modifies this
      ensures Contents() == Record(effectName, old(operations)[op := Simple(handler)])
    {
      operations := operations[op := Simple(handler)];
    }

    method InsertContinuationOp(op: string, handler: F)
      modifies this
      ensures Contents() == Record(effectName, old(operations)[op := Continuation(handler)])
    {
      operations := operations[op := Continuation(handler)];
    }
  }

  /** A continuation that may be called once. `None` stands for the panic of a second call. */
  class Resume<A, R> {
    var called: bool
    var f: Option<A -> R>

    predicate Valid()
      reads this
    {
      called <==> f.None?
    }

    constructor (f: A -> R)
      ensures Valid() && this.f == Some(f)
    {
      called := false;
      this.f := Some(f);
    }

    method Call(args: A) returns (result: Option<R>)
      requires Valid()
      modifies this
      ensures Valid() && called
      ensures result == if old(f).Some? then Some(old(f).value(args)) else None
    {
      if called {
        return None;
      }
      called := true;
      var slot := f;
      f := None;
      match slot {
        case Some(k) => result := Some(k(args));
        case None => result := None;
      }
    }
  }

  /** Records are ordered from the outermost to the innermost. */
  datatype EvidenceVector<F> = Empty | Single(record: Record<F>) | Multi(records: seq<Record<F>>) {
    function Extend(inner: Record<F>): EvidenceVector<F> {
      match this
      case Empty => Single(inner)
      case Single(existing) => Multi([existing, inner])
      case Multi(existing) => Multi(existing + [inner])
    }

    function Lookup(effect: string, op: string): Option<HandlerOp<F>> {
      match this
      case Empty => None
      case Single(r) => if r.effectName == effect then r.Lookup(op) else None
      case Multi(rs) =>
        (match FindLast(rs, effect)
         case Some(r) => r.Lookup(op)
         case None => None)
    }
  }

  /** `iter().rev().find(..)`. */
  function FindLast<F>(records: seq<Record<F>>, effect: string): Option<Record<F>> {
    if records == [] then None
    else if records[|records| - 1].effectName == effect then Some(records[|records| - 1])
    else FindLast(records[..|records| - 1], effect)
  }

  function FromRecords<F>(records: seq<Record<F>>): EvidenceVector<F> {
    if |records| == 0 then Empty
    else if |records| == 1 then Single(records[0])
    else Multi(records)
  }

  /** Entering one `handle` form after another. */
  function ExtendAll<F>(ev: EvidenceVector<F>, records: seq<Record<F>>): EvidenceVector<F>
    decreases |records|
  {
    if records == [] then ev else ExtendAll(ev.Extend(records[0]), records[1..])
  }

  /** The last record for the effect stands at `i`. */
  predicate InnermostAt<F>(records: seq<Record<F>>, effect: string, i: nat) {
    i < |records| && records[i].effectName == effect && forall j | i < j < |records| :: records[j].effectName != effect
  }

  /** Extending keeps the form that `from_records` chooses. */
  lemma {:induction false} ExtendAllIsFromRecords<F>(before: seq<Record<F>>, records: seq<Record<F>>)
    ensures ExtendAll(FromRecords(before), records) == FromRecords(before + records)
    decreases |records|
  {
    if records == [] {
      assert before + records == before;
    } else {
      assert FromRecords(before).Extend(records[0]) == FromRecords(before + [records[0]]) by {
        if |before| == 1 { assert before + [records[0]] == [before[0], records[0]]; }
      }
      ExtendAllIsFromRecords(before + [records[0]], records[1..]);
      assert before + [records[0]] + records[1..] == before + records;
    }
  }

  lemma {:induction false} FindLastIsInnermost<F>(records: seq<Record<F>>, effect: string, i: nat)
    requires InnermostAt(records, effect, i)
    ensures FindLast(records, effect) == Some(records[i])
    decreases |records|
  {
    var last := |records| - 1;
    if i < last {
      assert records[last].effectName != effect;
      assert InnermostAt(records[..last], effect, i);
      FindLastIsInnermost(records[..last], effect, i);
    }
  }

  predicate Unhandled<F>(records: seq<Record<F>>, effect: string) {
    forall j | 0 <= j < |records| :: records[j].effectName != effect
  }

  lemma {:induction false} FindLastNone<F>(records: seq<Record<F>>, effect: string)
    requires Unhandled(records, effect)
    ensures FindLast(records, effect) == None
    decreases |records|
  {
    if records != [] {
      var last := |records| - 1;
      assert Unhandled(records[..last], effect);
      FindLastNone(records[..last], effect);
    }
  }

  lemma LookupFound<F>(records: seq<Record<F>>, effect: string, op: string)
    ensures FromRecords(records).Lookup(effect, op) ==
            match FindLast(records, effect)
            case Some(r) => r.Lookup(op)
            case None => None
  {
    if |records| == 1 { assert records[..0] == []; }
  }

  /** What a record says about an operation: the handler inserted for it, if any. */
  function Answer<F>(record: Record<F>, op: string): Option<HandlerOp<F>> {
    if op in record.operations then Some(record.operations[op]) else None
  }

  /**
   After any sequence of extensions the vector has the form `from_records` chooses, and lookup answers from the
   innermost record for the effect alone: outer records for it are masked even when the inner one lacks the operation.
  */
  lemma LookupRefinesStack<F>(records: seq<Record<F>>, effect: string, op: string)
    ensures ExtendAll(EvidenceVector<F>.Empty, records) == FromRecords(records)
    ensures forall i: nat | InnermostAt(records, effect, i) ::
              FromRecords(records).Lookup(effect, op) == Answer(records[i], op)
    ensures Unhandled(records, effect) ==> FromRecords(records).Lookup(effect, op) == None
  {
    assert FromRecords<F>([]) == EvidenceVector<F>.Empty;
    hide FindLast, FromRecords, ExtendAll;
    ExtendAllIsFromRecords([], records);
    assert [] + records == records;
    LookupFound(records, effect, op);
    forall i: nat | InnermostAt(records, effect, i)
      ensures FromRecords(records).Lookup(effect, op) == Answer(records[i], op)
    {
      FindLastIsInnermost(records, effect, i);
    }
    if Unhandled(records, effect) { FindLastNone(records, effect); }
  }

  /** The stack law, for every evidence vector. */
  lemma ExtendMasks<F>(ev: EvidenceVector<F>, inner: Record<F>, effect: string, op: string)
    ensures ev.Extend(inner).Lookup(effect, op) ==
            if inner.effectName == effect then Answer(inner, op) else ev.Lookup(effect, op)
  {
    match ev
    case Empty =>
    case Single(existing) =>
      assert [existing, inner][..1] == [existing];
      LookupFound([existing], effect, op);
    case Multi(records) => assert (records + [inner])[..|records|] == records;
  }
}
