/** The reader's syntax tree (crates/nexl-ast/src/node.rs) and the shape tests shared by its consumers. */
module Ast {
  import opened Basics

  datatype IntSuffix = I8 | I16 | I32 | I64 | U8 | U16 | U32 | U64

  datatype FloatSuffix = F32 | F64

  /** `Float` carries its printed digits: rounding is not modelled. */
  datatype Atom =
    | Int(value: int, intSuffix: Option<IntSuffix>)
    | Float(digits: string, floatSuffix: Option<FloatSuffix>)
    | Ratio(numer: int, denom: int)
    | Bool(b: bool)
    | Char(c: char)
    | Str(s: string)
    | Keyword(ns: Option<string>, name: string)
    | Symbol(ns: Option<string>, name: string)
    | Unit

  /** The six one-operand reader macros. */
  datatype Prefix = Quote | Deref | Discard | Quasiquote | Unquote | UnquoteSplice

  datatype Kind =
    | Atomic(atom: Atom)
    | List(items: seq<Node>)
    | Vector(items: seq<Node>)
    | Map(pairs: seq<Entry>)
    | Set(items: seq<Node>)
    | Prefixed(prefix: Prefix, inner: Node)

  datatype Entry = Entry(key: Node, val: Node)

  datatype Node = Node(kind: Kind, leading: seq<string>, trailing: Option<string>)

  predicate IsSymbol(n: Node, name: string) {
    n.kind == Atomic(Symbol(None, name))
  }

  predicate IsPipe(n: Node) {
    IsSymbol(n, "|")
  }

  /** The `mut` that may stand before a binding. */
  predicate IsMut(n: Node) {
    IsSymbol(n, "mut")
  }

  predicate IsCompound(k: Kind) {
    k.List? || k.Vector? || k.Map? || k.Set?
  }

  /** `Some(name)` for an unqualified head symbol. */
  function HeadName(items: seq<Node>): Option<string>
    requires items != []
  {
    match items[0].kind
    case Atomic(Symbol(None, name)) => Some(name)
    case _ => None
  }

  /** A list printed as `expr?` instead of `(? expr)`. */
  predicate IsPostfixQuestion(items: seq<Node>) {
    |items| == 2 && IsSymbol(items[0], "?")
  }

  predicate CommentFree(n: Node)
    decreases n
  {
    n.leading == [] && n.trailing == None && CommentFreeKind(n.kind)
  }

  predicate CommentFreeKind(k: Kind)
    decreases k
  {
    match k
    case Atomic(_) => true
    case List(items) => forall x <- items :: CommentFree(x)
    case Vector(items) => forall x <- items :: CommentFree(x)
    case Set(items) => forall x <- items :: CommentFree(x)
    case Map(pairs) => forall p <- pairs :: CommentFree(p.key) && CommentFree(p.val)
    case Prefixed(_, inner) => CommentFree(inner)
  }
}
