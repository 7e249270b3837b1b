/**
 * The loosely-typed configuration tree that PyYAML hands to the program:
 * nested mappings with string keys, lists and scalars.  Mappings are Dafny
 * maps, so `==` between two trees ignores key order; it is structural, so it
 * keeps `Bool(true)` and `Int(1)` apart.  Python's `==`, which counts `True`
 * as `1` and `False` as `0` at any depth, is `PyEq`.
 */
module Values {

  datatype Value =
    | Null
    | Bool(b: bool)
    | Int(i: int)
    | Str(s: string)
    | List(items: seq<Value>)
    | Map(fields: map<string, Value>)

  /** A top-level configuration document: a mapping from field names to values. */
  type Document = map<string, Value>

  /** Python truthiness: `None`, `False`, `0` and empty containers are false. */
  predicate Truthy(v: Value) {
    match v
    case Null => false
    case Bool(b) => b
    case Int(i) => i != 0
    case Str(s) => |s| > 0
    case List(xs) => |xs| > 0
    case Map(m) => |m| > 0
  }

  /** `m.get(key, default)` on a Python dict. */
  function GetOr(m: map<string, Value>, key: string, default: Value): Value {
    if key in m then m[key] else default
  }

  /** Whether `t` occurs as a contiguous piece of `s` (Python's `t in s` on strings). */
  predicate HasInfix(s: string, t: string)
    decreases |s|
  {
    |t| <= |s| && (s[..|t|] == t || HasInfix(s[1..], t))
  }

  /** `t` occurs in `s` starting at position `i`. */
  predicate OccursAt(s: string, t: string, i: int) {
    0 <= i && i + |t| <= |s| && s[i..i + |t|] == t
  }

  /** Whether `t` occurs in `s` at some position: what `t in s` means on strings. */
  lemma {:induction false} HasInfixAtSomePosition(s: string, t: string)
    ensures HasInfix(s, t) <==> exists i :: OccursAt(s, t, i)
    decreases |s|
  {
    if |t| <= |s| {
      if s[..|t|] == t {
        assert OccursAt(s, t, 0);
      } else if |s| > 0 {
        HasInfixAtSomePosition(s[1..], t);
        if exists i :: OccursAt(s, t, i) {
          var i :| OccursAt(s, t, i);
          assert i > 0;
          assert s[1..][i - 1..i - 1 + |t|] == s[i..i + |t|];
          assert OccursAt(s[1..], t, i - 1);
        }
        if exists i :: OccursAt(s[1..], t, i) {
          var i :| OccursAt(s[1..], t, i);
          assert s[i + 1..i + 1 + |t|] == s[1..][i..i + |t|];
          assert OccursAt(s, t, i + 1);
        }
      }
    }
  }

  /** Booleans and integers, which Python compares as numbers (`bool` subclasses `int`). */
  predicate IsNumber(v: Value) {
    v.Bool? || v.Int?
  }

  function NumberOf(v: Value): int
    requires IsNumber(v)
  {
    match v
    case Bool(b) => if b then 1 else 0
    case Int(i) => i
  }

  /**
   * Python's `==` on configuration trees: `True == 1` and `False == 0`,
   * mappings are equal when they have the same keys and equal values, lists
   * when they have equal items in the same order, and values of different
   * types are otherwise unequal.
   */
  predicate PyEq(a: Value, b: Value)
    decreases a
  {
    if IsNumber(a) || IsNumber(b) then IsNumber(a) && IsNumber(b) && NumberOf(a) == NumberOf(b)
    else
      match a
      case Null => b.Null?
      case Str(s) => b.Str? && b.s == s
      case List(xs) => b.List? && |xs| == |b.items| && forall i :: 0 <= i < |xs| ==> PyEq(xs[i], b.items[i])
      case Map(m) => b.Map? && m.Keys == b.fields.Keys && forall k :: k in m ==> PyEq(m[k], b.fields[k])
      case Bool(_) => false
      case Int(_) => false
  }

  lemma {:induction false} PyEqReflexive(a: Value)
    ensures PyEq(a, a)
    decreases a
  {
    match a
    case List(xs) =>
      forall i | 0 <= i < |xs|
        ensures PyEq(xs[i], xs[i])
      {
        PyEqReflexive(xs[i]);
      }
    case Map(m) =>
      forall k | k in m
        ensures PyEq(m[k], m[k])
      {
        PyEqReflexive(m[k]);
      }
    case _ =>
  }

  lemma {:induction false} PyEqSymmetric(a: Value, b: Value)
    requires PyEq(a, b)
    ensures PyEq(b, a)
    decreases a
  {
    if !IsNumber(a) && !IsNumber(b) {
      match a
      case List(xs) =>
        forall i | 0 <= i < |xs|
          ensures PyEq(b.items[i], xs[i])
        {
          PyEqSymmetric(xs[i], b.items[i]);
        }
      case Map(m) =>
        forall k | k in b.fields
          ensures PyEq(b.fields[k], m[k])
        {
          PyEqSymmetric(m[k], b.fields[k]);
        }
      case _ =>
    }
  }

  /** A tree holding no boolean anywhere. */
  predicate BoolFree(v: Value)
    decreases v
  {
    match v
    case Bool(_) => false
    case List(xs) => forall i :: 0 <= i < |xs| ==> BoolFree(xs[i])
    case Map(m) => forall k :: k in m ==> BoolFree(m[k])
    case _ => true
  }

  /** Python's `==` differs from structural equality only by identifying booleans with 0 and 1. */
  lemma {:induction false} PyEqWithoutBools(a: Value, b: Value)
    requires BoolFree(a) && BoolFree(b)
    ensures PyEq(a, b) <==> a == b
    decreases a
  {
    if a == b {
      PyEqReflexive(a);
    }
    if PyEq(a, b) {
      match a
      case List(xs) =>
        forall i | 0 <= i < |xs|
          ensures xs[i] == b.items[i]
        {
          PyEqWithoutBools(xs[i], b.items[i]);
        }
        assert xs == b.items;
      case Map(m) =>
        forall k | k in m
          ensures m[k] == b.fields[k]
        {
          PyEqWithoutBools(m[k], b.fields[k]);
        }
        assert m == b.fields;
      case _ =>
    }
  }

  /** Where Python's `==` and structural equality part ways, and where they do not. */
  lemma PyEqExamples()
    ensures PyEq(Map(map["x" := Bool(true)]), Map(map["x" := Int(1)]))
    ensures Map(map["x" := Bool(true)]) != Map(map["x" := Int(1)])
    ensures PyEq(List([Bool(false)]), List([Int(0)]))
    ensures !PyEq(Str("1"), Int(1))
    ensures !PyEq(Null, Bool(false))
    ensures !PyEq(Map(map[]), List([]))
  {
    assert PyEq(Bool(true), Int(1));
    assert Map(map["x" := Bool(true)]).fields["x"] != Map(map["x" := Int(1)]).fields["x"];
  }
}
