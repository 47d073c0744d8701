/** Nested access and update (crates/nexl-eval/src/stdlib.rs): `get`, `put`, `get-in`, `assoc-in`, `update-in`. */
module NestedUpdates {
  import opened Basics
  import opened Values

  datatype StdError =
    | TypeMismatch(op: string, expected: string, got: Value)
    | OutOfBounds(index: int)
    | KeyNotFound
    | CallFailed(message: string)

  type Outcome = Result<Value, StdError>

  function Get(coll: Value, key: Value): Outcome {
    match coll
    case Vec(items) =>
      if !key.Int? then Err(TypeMismatch("get", "Int", key))
      else if 0 <= key.i < |items| then Ok(OptionSome(items[key.i]))
      else Ok(OPTION_NONE)
    case Map(entries) =>
      (match MapGet(entries, key)
       case Some(v) => Ok(OptionSome(v))
       case None => Ok(OPTION_NONE))
    case _ => Err(TypeMismatch("get", "Vec or Map", coll))
  }

  function Put(coll: Value, key: Value, value: Value): Outcome {
    match coll
    case Vec(items) =>
      if !key.Int? then Err(TypeMismatch("put", "Int", key))
      else if 0 <= key.i < |items| then Ok(Vec(items[key.i := value]))
      else Err(OutOfBounds(key.i))
    case Map(entries) => Ok(Map(MapPut(entries, key, value)))
    case _ => Err(TypeMismatch("put", "Vec or Map", coll))
  }

  predicate IsSome(v: Value) {
    v.Adt? && v.ctor == "Some" && v.fields != []
  }

  /** What `get-in` walks to, key by key. */
  function GetIn(coll: Value, path: seq<Value>): Outcome
    decreases |path|
  {
    if path == [] then Ok(OptionSome(coll))
    else
      match Get(coll, path[0])
      case Err(e) => Err(e)
      case Ok(v) => if IsSome(v) then GetIn(v.fields[0], path[1..]) else Ok(OPTION_NONE)
  }

  /** `get_in_fn`. */
  method GetInFn(coll: Value, path: Value) returns (r: Outcome)
    ensures r == if path.Vec? then GetIn(coll, path.items) else Err(TypeMismatch("get-in", "Vec (key path)", path))
  {
    if !path.Vec? {
      return Err(TypeMismatch("get-in", "Vec (key path)", path));
    }
    var current := coll;
    for i := 0 to |path.items|
      invariant GetIn(coll, path.items) == GetIn(current, path.items[i..])
    {
      assert path.items[i..][0] == path.items[i] && path.items[i..][1..] == path.items[i + 1..];
      var result := Get(current, path.items[i]);
      if result.Err? {
        return result;
      }
      if !IsSome(result.value) {
        return Ok(OPTION_NONE);
      }
      current := result.value.fields[0];
    }
    r := Ok(OptionSome(current));
  }

  /** The collection under a key, or a new map when there is none. */
  function Inner(coll: Value, key: Value): Outcome {
    match Get(coll, key)
    case Err(e) => Err(e)
    case Ok(v) => Ok(if IsSome(v) then v.fields[0] else Map([]))
  }

  /** `assoc_in_fn` on a path and `assoc_in_recursive`. */
  function AssocIn(coll: Value, path: seq<Value>, value: Value): Outcome
    decreases |path|
  {
    if path == [] then Ok(value)
    else if |path| == 1 then Put(coll, path[0], value)
    else
      match Inner(coll, path[0])
      case Err(e) => Err(e)
      case Ok(inner) =>
        match AssocIn(inner, path[1..], value)
        case Err(e) => Err(e)
        case Ok(updated) => Put(coll, path[0], updated)
  }

  type Callable = Value -> Outcome

  /** `update_fn`: `f` stands for calling the given function value. */
  function Update(coll: Value, key: Value, f: Callable): Outcome {
    match Get(coll, key)
    case Err(e) => Err(e)
    case Ok(v) =>
      if !IsSome(v) then Err(KeyNotFound)
      else
        match f(v.fields[0])
        case Err(e) => Err(e)
        case Ok(updated) => Put(coll, key, updated)
  }

  /** `update_in_fn` on a path and `update_in_recursive`. */
  function UpdateIn(coll: Value, path: seq<Value>, f: Callable): Outcome
    decreases |path|
  {
    if path == [] then f(coll)
    else if |path| == 1 then Update(coll, path[0], f)
    else
      match Get(coll, path[0])
      case Err(e) => Err(e)
      case Ok(v) =>
        if !IsSome(v) then Err(KeyNotFound)
        else
          match UpdateIn(v.fields[0], path[1..], f)
          case Err(e) => Err(e)
          case Ok(updated) => Put(coll, path[0], updated)
  }

  // ---------------------------------------------------------------------------------------------
  // Laws
  // ---------------------------------------------------------------------------------------------

  /** `get` on a vector: the element at an index within it, counted from zero. */
  lemma GetVector(items: seq<Value>, key: Value)
    ensures Get(Vec(items), key) ==
            match key
            case Int(i) =>
              if 0 <= i < |items| then Ok(Adt("Option", "Some", [items[i]])) else Ok(Adt("Option", "None", []))
            case _ => Err(TypeMismatch("get", "Int", key))
  {
  }

  /** `get` on a map: the value of the first entry for the key. */
  lemma {:induction false} GetMap(entries: seq<Binding>, key: Value, i: nat)
    ensures i < |entries| && entries[i].key == key && (forall j | 0 <= j < i :: entries[j].key != key) ==>
              Get(Map(entries), key) == Ok(Adt("Option", "Some", [entries[i].value]))
    ensures (forall j | 0 <= j < |entries| :: entries[j].key != key) ==>
              Get(Map(entries), key) == Ok(Adt("Option", "None", []))
    decreases |entries|
  {
    if entries != [] && entries[0].key != key {
      GetMap(entries[1..], key, if i > 0 then i - 1 else 0);
      assert forall j | 0 <= j < |entries[1..]| :: entries[1..][j] == entries[j + 1];
    }
  }

  /** A key that can be put can be read back, and putting it changes no other key. */
  lemma GetPut(coll: Value, key: Value, value: Value, other: Value)
    requires Put(coll, key, value).Ok?
    ensures Get(Put(coll, key, value).value, other) == if other == key then Ok(OptionSome(value)) else Get(coll, other)
    ensures Get(coll, key).Ok?
  {
    if coll.Map? { MapGetPut(coll.entries, key, value, other); }
  }

  lemma PutPut(coll: Value, key: Value, first: Value, second: Value)
    requires Put(coll, key, first).Ok?
    ensures Put(Put(coll, key, first).value, key, second) == Put(coll, key, second)
  {
    match coll
    case Map(entries) => MapPutPut(entries, key, first, second);
    case Vec(items) => assert items[key.i := first][key.i := second] == items[key.i := second];
  }

  lemma {:induction false} GetInAssocIn(coll: Value, path: seq<Value>, value: Value)
    requires AssocIn(coll, path, value).Ok?
    ensures GetIn(AssocIn(coll, path, value).value, path) == Ok(OptionSome(value))
    decreases |path|
  {
    if path != [] {
      var inner := Inner(coll, path[0]);
      var updated := if |path| == 1 then value else AssocIn(inner.value, path[1..], value).value;
      if |path| > 1 { GetInAssocIn(inner.value, path[1..], value); }
      GetPut(coll, path[0], updated, path[0]);
    }
  }

  lemma {:induction false} AssocInTwice(coll: Value, path: seq<Value>, first: Value, second: Value)
    requires AssocIn(coll, path, first).Ok?
    ensures AssocIn(AssocIn(coll, path, first).value, path, second) == AssocIn(coll, path, second)
    decreases |path|
  {
    hide *;
    AssocStep(coll, path, first);
    AssocStep(coll, path, second);
    AssocStep(AssocIn(coll, path, first).value, path, second);
    if |path| == 1 {
      PutPut(coll, path[0], first, second);
    } else if |path| > 1 {
      var inner := Inner(coll, path[0]).value;
      var once := AssocIn(inner, path[1..], first).value;
      AssocInTwice(inner, path[1..], first, second);
      InnerPut(coll, path[0], once);
      if AssocIn(inner, path[1..], second).Ok? {
        PutPut(coll, path[0], once, AssocIn(inner, path[1..], second).value);
      }
    }
  }

  lemma AssocStep(coll: Value, path: seq<Value>, value: Value)
    ensures path == [] ==> AssocIn(coll, path, value) == Ok(value)
    ensures |path| == 1 ==> AssocIn(coll, path, value) == Put(coll, path[0], value)
    ensures |path| > 1 && Inner(coll, path[0]).Err? ==> AssocIn(coll, path, value) == Inner(coll, path[0])
    ensures |path| > 1 && Inner(coll, path[0]).Ok? ==>
              var below := AssocIn(Inner(coll, path[0]).value, path[1..], value);
              AssocIn(coll, path, value) == if below.Err? then below else Put(coll, path[0], below.value)
  {
    hide Inner, Put;
  }

  lemma InnerPut(coll: Value, key: Value, value: Value)
    requires Put(coll, key, value).Ok?
    ensures Inner(Put(coll, key, value).value, key) == Ok(value)
  {
    hide Put;
    GetPut(coll, key, value, key);
  }

  /** The paths agree up to `i` and then name different keys. */
  predicate Diverge(path: seq<Value>, other: seq<Value>, i: nat) {
    i < |path| && i < |other| && path[i] != other[i] && path[..i] == other[..i]
  }

  lemma {:induction false} GetInElsewhere(coll: Value, path: seq<Value>, value: Value, other: seq<Value>, i: nat)
    requires AssocIn(coll, path, value).Ok? && Diverge(path, other, i)
    ensures GetIn(AssocIn(coll, path, value).value, other) == GetIn(coll, other)
    decreases i
  {
    var inner := Inner(coll, path[0]);
    var updated := if |path| == 1 then value else AssocIn(inner.value, path[1..], value).value;
    GetPut(coll, path[0], updated, other[0]);
    if i > 0 {
      assert path[0] == path[..i][0] == other[..i][0] == other[0];
      assert path[1..][..i - 1] == path[..i][1..] == other[1..][..i - 1];
      GetInElsewhere(inner.value, path[1..], value, other[1..], i - 1);
      if !IsSome(Get(coll, path[0]).value) { EmptyMapGetIn(other[1..]); }
    }
  }

  lemma EmptyMapGetIn(path: seq<Value>)
    requires path != []
    ensures GetIn(Map([]), path) == Ok(OPTION_NONE)
  {
  }

  /** `update-in` fails unless the path is present and the function succeeds; then it is `assoc-in` of the new value. */
  lemma {:induction false} UpdateInIsAssocIn(coll: Value, path: seq<Value>, f: Callable)
    ensures match GetIn(coll, path)
            case Err(_) => UpdateIn(coll, path, f).Err?
            case Ok(found) =>
              if !IsSome(found) then UpdateIn(coll, path, f).Err?
              else
                match f(found.fields[0])
                case Err(e) => UpdateIn(coll, path, f) == Err(e)
                case Ok(y) => UpdateIn(coll, path, f) == AssocIn(coll, path, y) && AssocIn(coll, path, y).Ok?
    decreases |path|
  {
    if path != [] && Get(coll, path[0]).Ok? && IsSome(Get(coll, path[0]).value) {
      PresentKey(coll, path[0]);
      UpdateInIsAssocIn(Get(coll, path[0]).value.fields[0], path[1..], f);
    }
  }

  lemma PresentKey(coll: Value, key: Value)
    requires Get(coll, key).Ok? && IsSome(Get(coll, key).value)
    ensures forall v :: Put(coll, key, v).Ok?
    ensures Inner(coll, key) == Ok(Get(coll, key).value.fields[0])
  {
  }

  /** Maps of one entry, one inside the other along the path. */
  function Nested(path: seq<Value>, value: Value): Value {
    if path == [] then value else Map([Binding(path[0], Nested(path[1..], value))])
  }

  /** Where the path leaves a map, `assoc-in` makes the maps it needs at the end of the entries. */
  lemma {:induction false} AssocInBuilds(entries: seq<Binding>, path: seq<Value>, value: Value)
    requires path != [] && forall i | 0 <= i < |entries| :: entries[i].key != path[0]
    ensures AssocIn(Map(entries), path, value) == Ok(Map(entries + [Binding(path[0], Nested(path[1..], value))]))
    decreases |path|
  {
    hide MapGet, MapPut;
    GetMap(entries, path[0], 0);
    if |path| > 1 {
      AssocInBuilds([], path[1..], value);
      assert [] + [Binding(path[1], Nested(path[2..], value))] == [Binding(path[1], Nested(path[2..], value))];
      assert path[1..][1..] == path[2..];
    }
    PutAtEnd(entries, path[0], Nested(path[1..], value));
  }

  lemma {:induction false} PutAtEnd(entries: seq<Binding>, key: Value, value: Value)
    requires forall i | 0 <= i < |entries| :: entries[i].key != key
    ensures MapPut(entries, key, value) == entries + [Binding(key, value)]
  {
    if entries != [] { PutAtEnd(entries[1..], key, value); }
  }
}
