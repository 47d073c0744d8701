/** Runtime values (crates/nexl-runtime/src/value.rs), and the insertion-ordered map `NexlMap`. */
module Values {
  import opened Basics
  import opened Ast

  const I64_LIMIT := 0x8000_0000_0000_0000
  const TWO_64 := 0x1_0000_0000_0000_0000

  type i64 = x: int | -I64_LIMIT <= x < I64_LIMIT

  /** Two's-complement truncation: what `wrapping_*` and `as i64` compute. */
  function Wrap(x: int): i64 {
    (x + I64_LIMIT) % TWO_64 - I64_LIMIT
  }

  /** A user-defined function with the bindings it captured. */
  datatype Closure = Closure(
    name: Option<string>, params: seq<string>, rest: Option<string>, captures: map<string, Value>, body: seq<Node>,
    pre: seq<Node>, post: seq<Node>)

  /** Map entries are kept in insertion order. A native function is known by its name. */
  datatype Value =
    | Int(i: i64)
    | Float(digits: string)
    | Bool(b: bool)
    | Str(s: string)
    | Unit
    | Char(c: char)
    | Keyword(ns: Option<string>, name: string)
    | Ratio(numer: i64, denom: i64)
    | Vec(items: seq<Value>)
    | Map(entries: seq<Binding>)
    | Set(items: seq<Value>)
    | Adt(typeName: string, ctor: string, fields: seq<Value>)
    | Function(func: Closure)
    | Native(native: string)

  datatype Binding = Binding(key: Value, value: Value)

  function OptionSome(v: Value): Value {
    Adt("Option", "Some", [v])
  }

  const OPTION_NONE := Adt("Option", "None", [])

  /** `NexlMap::get`. */
  function MapGet(entries: seq<Binding>, key: Value): Option<Value> {
    if entries == [] then None
    else if entries[0].key == key then Some(entries[0].value)
    else MapGet(entries[1..], key)
  }

  /** `NexlMap::put`: an existing key keeps its position. */
  function MapPut(entries: seq<Binding>, key: Value, value: Value): seq<Binding> {
    if entries == [] then [Binding(key, value)]
    else if entries[0].key == key then [Binding(key, value)] + entries[1..]
    else [entries[0]] + MapPut(entries[1..], key, value)
  }

  lemma {:induction false} MapGetPut(entries: seq<Binding>, key: Value, value: Value, other: Value)
    ensures MapGet(MapPut(entries, key, value), other) == if other == key then Some(value) else MapGet(entries, other)
  {
    if entries != [] && entries[0].key != key {
      MapGetPut(entries[1..], key, value, other);
      assert MapPut(entries, key, value)[1..] == MapPut(entries[1..], key, value);
    }
  }

  lemma {:induction false} MapPutPut(entries: seq<Binding>, key: Value, first: Value, second: Value)
    ensures MapPut(MapPut(entries, key, first), key, second) == MapPut(entries, key, second)
  {
    if entries != [] && entries[0].key != key {
      MapPutPut(entries[1..], key, first, second);
      assert MapPut(entries, key, first)[1..] == MapPut(entries[1..], key, first);
    }
  }
}
