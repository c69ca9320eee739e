/**
 * The small part of JavaScript's value semantics that the player and the
 * catalog client rely on: untyped JSON-like values, truthiness, optional
 * property access, the truncating remainder operator and `Array.prototype.slice`.
 */
module Js {

  /** A parsed catalog document. Numbers are modelled as integers. */
  datatype Json =
    | Undefined
    | Null
    | Bool(b: bool)
    | Num(n: int)
    | Str(s: string)
    | Arr(items: seq<Json>)
    | Obj(fields: map<string, Json>)

  /** The outcome of a statement sequence that may throw a `TypeError`. */
  datatype Completion<+T> = Normal(value: T) | TypeError

  /** JavaScript truthiness: `undefined`, `null`, `false`, `0` and `""` are falsy. */
  predicate Truthy(v: Json) {
    match v
    case Undefined => false
    case Null => false
    case Bool(b) => b
    case Num(n) => n != 0
    case Str(s) => s != ""
    case Arr(_) => true
    case Obj(_) => true
  }

  /** `undefined` or `null`: the values on which `?.` short-circuits. */
  predicate Nullish(v: Json) {
    v.Undefined? || v.Null?
  }

  /**
   * Property read `v.key` on a value that is not nullish: an object yields
   * its own field or `undefined`; every other value has no such field.
   */
  function Get(v: Json, key: string): Json {
    if v.Obj? && key in v.fields then v.fields[key] else Undefined
  }

  /**
   * The `%` operator on a positive divisor: the remainder of truncating
   * division, whose sign follows the dividend.
   */
  function Rem(a: int, n: int): (r: int)
    requires n > 0
    ensures a >= 0 ==> 0 <= r < n
    ensures a < 0 ==> -n < r <= 0
    ensures 0 <= a < n ==> r == a
    ensures n <= a < 2 * n ==> r == a - n
    ensures -n < a < 0 ==> r == a
    decreases if a < 0 then 1 - a else a
  {
    if a < 0 then -Rem(-a, n)
    else if a < n then a
    else Rem(a - n, n)
  }

  /** Where `slice(0, end)` stops in a list of length `len`; a negative end counts from the back. */
  function SliceEnd(len: nat, end: int): nat {
    if end < 0 then (if len + end > 0 then len + end else 0)
    else if end < len then end else len
  }

  /**
   * `s.slice(0, end)`: a prefix of `s`, `min(end, |s|)` long for a
   * non-negative end and `|s| + end` long (at least 0) for a negative one.
   */
  function Slice<T>(s: seq<T>, end: int): (r: seq<T>)
    ensures |r| <= |s| && r == s[..|r|]
    ensures end >= 0 ==> |r| == if end < |s| then end else |s|
    ensures end < 0 ==> |r| == if |s| + end > 0 then |s| + end else 0
  {
    s[..SliceEnd(|s|, end)]
  }

  /** `Array.prototype.map` with a pure callback: the same length, element by element. */
  function Map<T, U>(s: seq<T>, f: T -> U): (r: seq<U>)
    ensures |r| == |s|
    ensures forall i :: 0 <= i < |s| ==> r[i] == f(s[i])
  {
    seq(|s|, i requires 0 <= i < |s| => f(s[i]))
  }
}
