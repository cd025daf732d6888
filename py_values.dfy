/**
 * The Python values a property can hold and the bits of Python semantics the
 * property store relies on: `==` across numeric types, truthiness, `list.index`,
 * subscripting, `list(x)` and item assignment.
 */
module PyValues {

  import opened Wrappers

  /** A property value: None, a bool, an int, a float (as an exact real), a str or a list. */
  datatype Value =
    | NoneValue
    | Bool(b: bool)
    | Int(i: int)
    | Num(r: real)
    | Str(s: string)
    | List(items: seq<Value>)

  /** The Python exceptions the modelled operations can raise. */
  datatype PyError =
    | KeyError
    | ValueError
    | TypeError
    | IndexError
    | AssertionError
    | AttributeError
    | RuntimeError
    | ZeroDivisionError

  datatype Result<+T> = Ok(value: T) | Err(error: PyError)

  /** bool, int and float take part in Python's numeric comparisons. */
  predicate IsNumber(v: Value) {
    v.Bool? || v.Int? || v.Num?
  }

  function AsReal(v: Value): real
    requires IsNumber(v)
  {
    match v
    case Bool(b) => if b then 1.0 else 0.0
    case Int(i) => i as real
    case Num(r) => r
  }

  /**
   * Python `a == b`: numbers compare by magnitude whatever their type
   * (`True == 1 == 1.0`), strings by content, lists element by element,
   * and values of different kinds are unequal.
   */
  predicate Eq(a: Value, b: Value)
    decreases a
  {
    if IsNumber(a) && IsNumber(b) then AsReal(a) == AsReal(b)
    else
      match a
      case NoneValue => b.NoneValue?
      case Str(x) => b.Str? && b.s == x
      case List(xs) => b.List? && |xs| == |b.items| && forall i :: 0 <= i < |xs| ==> Eq(xs[i], b.items[i])
      case _ => false
  }

  lemma {:induction false} EqReflexive(a: Value)
    ensures Eq(a, a)
    decreases a
  {
    if a.List? {
      forall i | 0 <= i < |a.items| ensures Eq(a.items[i], a.items[i]) {
        EqReflexive(a.items[i]);
      }
    }
  }

  lemma {:induction false} EqSymmetric(a: Value, b: Value)
    requires Eq(a, b)
    ensures Eq(b, a)
    decreases a
  {
    if a.List? && !(IsNumber(a) && IsNumber(b)) {
      forall i | 0 <= i < |a.items| ensures Eq(b.items[i], a.items[i]) {
        EqSymmetric(a.items[i], b.items[i]);
      }
    }
  }

  /** Python truthiness. */
  predicate Truthy(v: Value) {
    match v
    case NoneValue => false
    case Bool(b) => b
    case Int(i) => i != 0
    case Num(r) => r != 0.0
    case Str(s) => |s| > 0
    case List(xs) => |xs| > 0
  }

  /** `xs.index(v)`: the first position holding a value `==` to `v`, or None (Python raises ValueError). */
  function IndexOf(xs: seq<Value>, v: Value): (r: Option<nat>)
    ensures r.Some? ==> r.value < |xs| && Eq(xs[r.value], v)
    ensures r.Some? ==> forall j :: 0 <= j < r.value ==> !Eq(xs[j], v)
    ensures r.None? ==> forall j :: 0 <= j < |xs| ==> !Eq(xs[j], v)
  {
    if |xs| == 0 then None
    else if Eq(xs[0], v) then Some(0)
    else
      match IndexOf(xs[1..], v)
      case None => None
      case Some(k) => Some(k + 1)
  }

  /** Python sequence indexing of a sequence of length `n`: negative indices count from the end. */
  function Position(n: nat, i: int): (r: Option<nat>)
    ensures r.Some? <==> -(n as int) <= i < n
    ensures r.Some? ==> r.value < n && (r.value == i || r.value == i + n)
  {
    if 0 <= i < n then Some(i)
    else if -(n as int) <= i < 0 then Some(i + n)
    else None
  }

  /** The integer a value denotes when used as an index (bools are ints in Python). */
  function AsIndex(v: Value): Option<int> {
    match v
    case Int(i) => Some(i)
    case Bool(b) => Some(if b then 1 else 0)
    case _ => None
  }

  /** `container[index]` for a list or a str; anything else cannot be subscripted by an int. */
  function Subscript(container: Value, index: Value): (r: Result<Value>)
    ensures r.Ok? ==> container.List? || container.Str?
    ensures container.List? && index.Int? && 0 <= index.i < |container.items| ==> r == Ok(container.items[index.i])
    ensures r.Err? ==> r.error in {TypeError, IndexError}
  {
    match AsIndex(index)
    case None => Err(TypeError)
    case Some(i) =>
      match container
      case List(xs) =>
        (match Position(|xs|, i)
         case Some(k) => Ok(xs[k])
         case None => Err(IndexError))
      case Str(s) =>
        (match Position(|s|, i)
         case Some(k) => Ok(Str([s[k]]))
         case None => Err(IndexError))
      case _ => Err(TypeError)
  }

  /** `list(v)`: a copy of a list, the characters of a str; numbers and None are not iterable. */
  function ListOf(v: Value): (r: Result<seq<Value>>)
    ensures v.List? ==> r == Ok(v.items)
    ensures r.Ok? ==> (v.List? || v.Str?)
    ensures v.Str? ==> r.Ok? && |r.value| == |v.s|
  {
    match v
    case List(xs) => Ok(xs)
    case Str(s) => Ok(seq(|s|, i requires 0 <= i < |s| => Str([s[i]])))
    case _ => Err(TypeError)
  }

  /** `xs[i] = v` on a list: only the addressed element changes; out of range raises IndexError. */
  function AssignIndex(xs: seq<Value>, i: int, v: Value): (r: Result<seq<Value>>)
    ensures r.Ok? <==> -|xs| <= i < |xs|
    ensures r.Ok? ==> |r.value| == |xs|
    ensures r.Ok? && 0 <= i ==> r.value[i] == v
    ensures r.Ok? ==> forall j :: 0 <= j < |xs| && j != i && j != i + |xs| ==> r.value[j] == xs[j]
  {
    match Position(|xs|, i)
    case Some(k) => Ok(xs[k := v])
    case None => Err(IndexError)
  }
}
