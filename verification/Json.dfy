/** JSON values and the Python operators the run-time applies to them. */
module Json {
  /** int and float share one constructor: Python compares them by value. */
  datatype Json = Null | Bool(b: bool) | Num(n: real) | Str(s: string) | Arr(items: seq<Json>)
    | Obj(fields: map<string, Json>)

  function IsNumber(v: Json): bool { v.Bool? || v.Num? }

  function NumberOf(v: Json): real
    requires IsNumber(v)
  {
    if v.Num? then v.n else if v.b then 1.0 else 0.0
  }

  /** `==`: True equals 1, lists and dictionaries compare deeply. */
  predicate PyEq(a: Json, b: Json) {
    if IsNumber(a) && IsNumber(b) then NumberOf(a) == NumberOf(b)
    else match (a, b)
      case (Null, Null) => true
      case (Str(x), Str(y)) => x == y
      case (Arr(x), Arr(y)) => |x| == |y| && forall i :: 0 <= i < |x| ==> PyEq(x[i], y[i])
      case (Obj(x), Obj(y)) => x.Keys == y.Keys && forall k :: k in x ==> PyEq(x[k], y[k])
      case _ => false
  }

  /** bool(value). */
  predicate Truthy(v: Json) {
    match v
    case Null => false
    case Bool(b) => b
    case Num(n) => n != 0.0
    case Str(s) => s != ""
    case Arr(items) => items != []
    case Obj(fields) => fields != map[]
  }

  // ------------------------------------------------------------------ equality

  /** The value with every boolean in it, at any depth, as the number it counts as. */
  function AsNumbers(v: Json): Json {
    match v
    case Bool(b) => Num(if b then 1.0 else 0.0)
    case Arr(items) => Arr(seq(|items|, i requires 0 <= i < |items| => AsNumbers(items[i])))
    case Obj(fields) => Obj(map k | k in fields :: AsNumbers(fields[k]))
    case _ => v
  }

  /** Two values are equal if and only if they are the same once booleans are taken for numbers. */
  lemma {:induction false} PyEqIs(a: Json, b: Json)
    ensures PyEq(a, b) <==> AsNumbers(a) == AsNumbers(b)
  {
    match (a, b)
    case (Arr(x), Arr(y)) =>
      var s, t := AsNumbers(a).items, AsNumbers(b).items;
      if |x| == |y| {
        forall i | 0 <= i < |x| ensures PyEq(x[i], y[i]) <==> s[i] == t[i] { PyEqIs(x[i], y[i]); }
        if PyEq(a, b) { assert s == t; }
      }
    case (Obj(x), Obj(y)) =>
      var s, t := AsNumbers(a).fields, AsNumbers(b).fields;
      assert s.Keys == x.Keys && t.Keys == y.Keys;
      if x.Keys == y.Keys {
        forall k | k in x ensures PyEq(x[k], y[k]) <==> s[k] == t[k] { PyEqIs(x[k], y[k]); }
        if PyEq(a, b) { assert s == t; }
      }
    case _ =>
  }

  lemma PyEqReflexive(a: Json)
    ensures PyEq(a, a)
  {
    PyEqIs(a, a);
  }

  lemma PyEqSymmetric(a: Json, b: Json)
    requires PyEq(a, b)
    ensures PyEq(b, a)
  {
    PyEqIs(a, b);
    PyEqIs(b, a);
  }

  lemma PyEqTransitive(a: Json, b: Json, c: Json)
    requires PyEq(a, b) && PyEq(b, c)
    ensures PyEq(a, c)
  {
    PyEqIs(a, b);
    PyEqIs(b, c);
    PyEqIs(a, c);
  }
}
