/** JSON values as Python holds them after `json.loads` or a database
    record's `data()`: None, bool, int, str, list and dict (keys distinct,
    kept in insertion order). Floats are not modelled. */
module Json {
  import opened Strings

  datatype Json =
    | JNull
    | JBool(b: bool)
    | JInt(i: int)
    | JStr(s: string)
    | JList(items: seq<Json>)
    | JDict(fields: seq<(string, Json)>)

  /** The integer a bool or int compares as under Python's `==` (True is 1, False is 0). */
  function NumericValue(j: Json): int
    requires j.JBool? || j.JInt?
  {
    if j.JInt? then j.i else if j.b then 1 else 0
  }

  /** Python's `a == b` on these values: bools equal the ints 1 and 0, lists
      compare position by position, dicts compare by key whatever the key order. */
  predicate PyEq(a: Json, b: Json)
    decreases a, 1
  {
    match a
    case JNull => b.JNull?
    case JBool(_) => (b.JBool? || b.JInt?) && NumericValue(a) == NumericValue(b)
    case JInt(_) => (b.JBool? || b.JInt?) && NumericValue(a) == NumericValue(b)
    case JStr(s) => b.JStr? && b.s == s
    case JList(xs) =>
      && b.JList?
      && |xs| == |b.items|
      && forall k :: 0 <= k < |xs| ==> PyEq(xs[k], b.items[k])
    case JDict(fs) =>
      && b.JDict?
      && |fs| == |b.fields|
      && forall k :: 0 <= k < |fs| ==> HasEqualEntry(a, k, b.fields)
  }

  /** Field `k` of dict `a` has a field with the same key and an equal value in `gs`. */
  predicate HasEqualEntry(a: Json, k: int, gs: seq<(string, Json)>)
    requires a.JDict? && 0 <= k < |a.fields|
    decreases a, 0
  {
    exists m :: 0 <= m < |gs| && gs[m].0 == a.fields[k].0 && PyEq(a.fields[k].1, gs[m].1)
  }

  /** Every value equals itself under Python's `==`. */
  lemma {:induction false} PyEqRefl(a: Json)
    ensures PyEq(a, a)
    decreases a
  {
    match a
    case JList(xs) =>
      forall k | 0 <= k < |xs| ensures PyEq(xs[k], xs[k]) {
        PyEqRefl(xs[k]);
      }
    case JDict(fs) =>
      forall k | 0 <= k < |fs| ensures HasEqualEntry(a, k, fs) {
        PyEqRefl(fs[k].1);
        assert fs[k].0 == fs[k].0 && PyEq(fs[k].1, fs[k].1);
      }
    case _ =>
  }

  /** Python's `==` is not structural identity: `True == 1`, and dicts ignore key order. */
  lemma PyEqLooserThanIdentity()
    ensures PyEq(JBool(true), JInt(1)) && JBool(true) != JInt(1)
    ensures var d1 := JDict([("a", JInt(1)), ("b", JInt(2))]);
            var d2 := JDict([("b", JInt(2)), ("a", JInt(1))]);
            PyEq(d1, d2) && d1 != d2
  {
    SwappedPairEqual("a", JInt(1), "b", JInt(2));
  }

  /** A two-key dict equals the same dict with its keys in the other order. */
  lemma SwappedPairEqual(k1: string, v1: Json, k2: string, v2: Json)
    ensures PyEq(JDict([(k1, v1), (k2, v2)]), JDict([(k2, v2), (k1, v1)]))
  {
    var d1 := JDict([(k1, v1), (k2, v2)]);
    var d2 := JDict([(k2, v2), (k1, v1)]);
    PyEqRefl(v1);
    PyEqRefl(v2);
    assert HasEqualEntry(d1, 0, d2.fields) by {
      assert d2.fields[1].0 == d1.fields[0].0 && PyEq(d1.fields[0].1, d2.fields[1].1);
    }
    assert HasEqualEntry(d1, 1, d2.fields) by {
      assert d2.fields[0].0 == d1.fields[1].0 && PyEq(d1.fields[1].1, d2.fields[0].1);
    }
  }

  /** `', '.join(parts)` */
  function CommaJoin(parts: seq<string>): string {
    if parts == [] then "" else if |parts| == 1 then parts[0] else parts[0] + ", " + CommaJoin(parts[1..])
  }

  /** `repr(j)`: how a value prints inside a list or dict (escapes and the choice of quotes are not modelled). */
  function Repr(j: Json): string
    decreases j
  {
    match j
    case JNull => "None"
    case JBool(b) => if b then "True" else "False"
    case JInt(i) => IntToString(i)
    case JStr(s) => "'" + s + "'"
    case JList(xs) => "[" + CommaJoin(seq(|xs|, k requires 0 <= k < |xs| => Repr(xs[k]))) + "]"
    case JDict(fs) =>
      "{" + CommaJoin(seq(|fs|, k requires 0 <= k < |fs| => "'" + fs[k].0 + "': " + Repr(fs[k].1))) + "}"
  }

  /** `str(j)`: a string prints bare, everything else as its repr. */
  function Str(j: Json): string {
    if j.JStr? then j.s else Repr(j)
  }

  /** `type(j).__name__`, as it appears in Python's TypeError messages. */
  function TypeName(j: Json): string {
    match j
    case JNull => "NoneType"
    case JBool(_) => "bool"
    case JInt(_) => "int"
    case JStr(_) => "str"
    case JList(_) => "list"
    case JDict(_) => "dict"
  }
}
