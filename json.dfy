/** The values `json.loads` produces, with Python's truthiness and the
    `dict.get` lookups the pipeline performs on them. Integers and floats
    are kept apart, as `json.loads` keeps them: `str` and `json.dumps` print
    `1` and `1.0` differently. */
module Json {

  datatype Value =
    | Null
    | Bool(b: bool)
    | Int(i: int)
    | Float(x: real)
    | Str(s: string)
    | Arr(elems: seq<Value>)
    | Obj(fields: map<string, Value>)

  /** Python's `bool(v)`: `None`, `False`, zero and empty containers are
      false, everything else true. */
  predicate Truthy(v: Value) {
    match v
    case Null => false
    case Bool(b) => b
    case Int(i) => i != 0
    case Float(x) => x != 0.0
    case Str(s) => s != ""
    case Arr(xs) => xs != []
    case Obj(m) => m != map[]
  }

  /** `d.get(k)`: the value under `k`, `None` when absent. */
  function Get(d: map<string, Value>, k: string): Value {
    if k in d then d[k] else Null
  }

  /** `x or y` on values. */
  function Or(x: Value, y: Value): Value {
    if Truthy(x) then x else y
  }

  /** The first truthy value among `keys` in `d`, as the chain
      `d.get(k0) or d.get(k1) or ...` yields it; `None` when there is none. */
  function FirstTruthy(d: map<string, Value>, keys: seq<string>): (r: Value)
    ensures Truthy(r) <==> exists j :: 0 <= j < |keys| && Truthy(Get(d, keys[j]))
    ensures !Truthy(r) ==> r == Null
    ensures Truthy(r) ==> exists j :: 0 <= j < |keys| && r == Get(d, keys[j])
    decreases |keys|
  {
    if keys == [] then Null
    else if Truthy(Get(d, keys[0])) then Get(d, keys[0])
    else
      var r := FirstTruthy(d, keys[1..]);
      assert forall j :: 0 <= j < |keys| - 1 ==> keys[1..][j] == keys[j + 1];
      r
  }

  /** The chain picks the earliest key whose value is truthy. */
  lemma {:induction false} FirstTruthyPicksEarliest(d: map<string, Value>, keys: seq<string>, i: nat)
    requires i < |keys| && Truthy(Get(d, keys[i]))
    requires forall j :: 0 <= j < i ==> !Truthy(Get(d, keys[j]))
    ensures FirstTruthy(d, keys) == Get(d, keys[i])
    decreases i
  {
    if i > 0 {
      FirstTruthyPicksEarliest(d, keys[1..], i - 1);
    }
  }

  /** A JSON-lines file as the pipeline reads it: its path and its lines. */
  datatype SourceFile = SourceFile(path: string, lines: seq<string>)
}
