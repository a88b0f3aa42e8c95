/** The small helpers of src/utils/utils.ts: strict equality, the null/undefined
    test, and the in-place push onto a JavaScript array that returns that array. */
module Utils {

  /** Strict equality `===` on values of a type with equality. */
  function IsEqual<T(==)>(a: T, b: T): (r: bool)
    ensures r <==> a == b
  {
    a == b
  }

  lemma IsEqualReflexive<T>(a: T)
    ensures IsEqual(a, a)
  {
  }

  lemma IsEqualSymmetric<T>(a: T, b: T)
    ensures IsEqual(a, b) == IsEqual(b, a)
  {
  }

  /** A JavaScript value that may also be `null` or `undefined`. */
  datatype Nullable<T> = Null | Undefined | Defined(value: T)

  /** `aValue != null`: loose inequality with null, which is false for both
      `null` and `undefined` and true for every other value. */
  function IsNotNil<T>(v: Nullable<T>): (r: bool)
    ensures r <==> v.Defined?
    ensures !r <==> (v.Null? || v.Undefined?)
  {
    match v
    case Null => false
    case Undefined => false
    case Defined(_) => true
  }

  /** A JavaScript array: a growable sequence of elements held by reference. */
  class JsArray<T> {
    var elems: seq<T>

    /** An array literal `[x, y, ...]`. */
    constructor (init: seq<T>)
      ensures elems == init
    {
      elems := init;
    }

    /** `Array.prototype.push` of one element. */
    method Push(x: T)
      modifies this
      ensures elems == old(elems) + [x]
    {
      elems := elems + [x];
    }
  }

  /** `arrayPush(aObj, aDst)`: pushes `x` onto `dst` in place and hands back the
      very same array, not a copy. */
  method ArrayPush<T>(x: T, dst: JsArray<T>) returns (r: JsArray<T>)
    modifies dst
    ensures r == dst
    ensures |dst.elems| == |old(dst.elems)| + 1
    ensures dst.elems[..|old(dst.elems)|] == old(dst.elems)
    ensures dst.elems[|dst.elems| - 1] == x
  {
    dst.Push(x);
    r := dst;
  }
}
