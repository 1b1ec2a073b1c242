/**
 * The values `json.loads` produces, and Python's `==` on them.
 *
 * Python compares `bool`, `int` and `float` by numeric value (`True == 1`,
 * `1 == 1.0`), lists element by element, and dicts by key set and per-key value,
 * ignoring insertion order. `str()` of a value and the decoder itself are not
 * defined here: the judge receives them as parameters.
 */
module PyJson {

  datatype Json =
    | JNull
    | JBool(b: bool)
    | JInt(i: int)
    | JFloat(f: real)
    | JStr(s: string)
    | JArr(items: seq<Json>)
    | JObj(fields: map<string, Json>)
  {
    /** `bool`, `int` and `float` form one numeric tower under `==`. */
    predicate IsNumeric()
    {
      JBool? || JInt? || JFloat?
    }

    function NumValue(): real
      requires IsNumeric()
    {
      match this
      case JBool(b) => if b then 1.0 else 0.0
      case JInt(i) => i as real
      case JFloat(f) => f
    }

    /** `type(v).__name__`. */
    function TypeName(): string
    {
      match this
      case JNull => "NoneType"
      case JBool(_) => "bool"
      case JInt(_) => "int"
      case JFloat(_) => "float"
      case JStr(_) => "str"
      case JArr(_) => "list"
      case JObj(_) => "dict"
    }
  }

  /** Python's `a == b` on decoded JSON values. */
  predicate PyEq(a: Json, b: Json)
  {
    if a.IsNumeric() && b.IsNumeric() then a.NumValue() == b.NumValue()
    else match (a, b)
      case (JNull, JNull) => true
      case (JStr(s), JStr(t)) => s == t
      case (JArr(xs), JArr(ys)) =>
        |xs| == |ys| && forall i | 0 <= i < |xs| :: PyEq(xs[i], ys[i])
      case (JObj(m), JObj(n)) =>
        m.Keys == n.Keys && forall k | k in m :: PyEq(m[k], n[k])
      case _ => false
  }

  /** Every value equals itself (no NaN is representable here). */
  lemma {:induction false} PyEqReflexive(a: Json)
    ensures PyEq(a, a)
  {
    match a
    case JArr(xs) =>
      forall i | 0 <= i < |xs| ensures PyEq(xs[i], xs[i]) {
        PyEqReflexive(xs[i]);
      }
    case JObj(m) =>
      forall k | k in m ensures PyEq(m[k], m[k]) {
        PyEqReflexive(m[k]);
      }
    case _ =>
  }

  lemma {:induction false} PyEqSymmetric(a: Json, b: Json)
    requires PyEq(a, b)
    ensures PyEq(b, a)
  {
    if !(a.IsNumeric() && b.IsNumeric()) {
      match (a, b)
      case (JArr(xs), JArr(ys)) =>
        forall i | 0 <= i < |ys| ensures PyEq(ys[i], xs[i]) {
          PyEqSymmetric(xs[i], ys[i]);
        }
      case (JObj(m), JObj(n)) =>
        forall k | k in n ensures PyEq(n[k], m[k]) {
          PyEqSymmetric(m[k], n[k]);
        }
      case _ =>
    }
  }

  lemma {:induction false} PyEqTransitive(a: Json, b: Json, c: Json)
    requires PyEq(a, b) && PyEq(b, c)
    ensures PyEq(a, c)
  {
    if !(a.IsNumeric() && b.IsNumeric()) {
      match (a, b, c)
      case (JArr(xs), JArr(ys), JArr(zs)) =>
        forall i | 0 <= i < |xs| ensures PyEq(xs[i], zs[i]) {
          PyEqTransitive(xs[i], ys[i], zs[i]);
        }
      case (JObj(m), JObj(n), JObj(o)) =>
        forall k | k in m ensures PyEq(m[k], o[k]) {
          PyEqTransitive(m[k], n[k], o[k]);
        }
      case _ =>
    }
  }

  /** Structurally identical values are Python-equal. */
  lemma SameValueEqual(a: Json, b: Json)
    requires a == b
    ensures PyEq(a, b)
  {
    PyEqReflexive(a);
  }

  /** `True == 1` and `1 == 1.0`, while `[1, 2] != [2, 1]` and `"1" != 1`. */
  lemma PyEqExamples()
    ensures PyEq(JBool(true), JInt(1))
    ensures PyEq(JInt(1), JFloat(1.0))
    ensures PyEq(JBool(false), JFloat(0.0))
    ensures !PyEq(JArr([JInt(1), JInt(2)]), JArr([JInt(2), JInt(1)]))
    ensures !PyEq(JStr("1"), JInt(1))
    ensures !PyEq(JNull, JInt(0))
  {
    var xs := [JInt(1), JInt(2)];
    var ys := [JInt(2), JInt(1)];
    assert !PyEq(xs[0], ys[0]);
  }

  /** Two dicts whose entries are equal are equal whatever order the keys arrived in. */
  lemma DictEqIgnoresOrder(k1: string, v1: Json, k2: string, v2: Json)
    requires k1 != k2
    ensures PyEq(JObj(map[k1 := v1][k2 := v2]), JObj(map[k2 := v2][k1 := v1]))
  {
    var m := map[k1 := v1][k2 := v2];
    assert m == map[k2 := v2][k1 := v1];
    PyEqReflexive(JObj(m));
  }
}
