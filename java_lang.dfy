/**
 * Java values the rest of the model needs: a nullable reference is an
 * Option, a thrown exception is a Failure, and a Java `int` is an
 * unbounded integer that is wrapped explicitly where the code updates it.
 */
module JavaLang {

  /** A Java reference that may be null. */
  datatype Option<T> = None | Some(value: T)
  {
    function GetOr(default: T): (r: T)
      ensures Some? ==> r == value
      ensures None? ==> r == default
    {
      if Some? then value else default
    }
  }

  /** The exceptions the modelled code can raise. */
  datatype Failure =
    | IndexOutOfBounds
    | NegativeLimit
    | IllegalArgument(message: string)
    | NumberFormat

  /** A value or the exception raised instead of it. */
  datatype Result<T> = Ok(value: T) | Thrown(failure: Failure)

  const INT_MIN: int := -0x8000_0000
  const INT_MAX: int := 0x7fff_ffff
  const TWO_32: int := 0x1_0000_0000

  predicate IsInt32(x: int) {
    INT_MIN <= x <= INT_MAX
  }

  /** Two's-complement wrap-around of a Java `int` result. */
  function Wrap(x: int): (r: int)
    ensures IsInt32(r)
    ensures (r - x) % TWO_32 == 0
    ensures IsInt32(x) ==> r == x
  {
    (x - INT_MIN) % TWO_32 + INT_MIN
  }

  /** `x + 1` on a Java `int`. */
  function Inc(x: int): (r: int)
    requires IsInt32(x)
    ensures IsInt32(r)
    ensures x < INT_MAX ==> r == x + 1
    ensures x == INT_MAX ==> r == INT_MIN
  {
    Wrap(x + 1)
  }

  /** Values that differ by a multiple of 2^32 wrap to the same `int`. */
  lemma WrapCongruent(x: int, y: int)
    requires (x - y) % TWO_32 == 0
    ensures Wrap(x) == Wrap(y)
  {
    var k := (x - y) / TWO_32;
    assert x - INT_MIN == (y - INT_MIN) + k * TWO_32;
    ModAddMultiple(y - INT_MIN, k);
  }

  lemma {:induction false} ModAddMultiple(a: int, k: int)
    ensures (a + k * TWO_32) % TWO_32 == a % TWO_32
    decreases if k < 0 then -k else k
  {
    if k > 0 {
      ModAddMultiple(a, k - 1);
      assert a + k * TWO_32 == (a + (k - 1) * TWO_32) + TWO_32;
    } else if k < 0 {
      ModAddMultiple(a, k + 1);
      assert a + k * TWO_32 == (a + (k + 1) * TWO_32) - TWO_32;
    }
  }

  /** Adding to an already wrapped `int` wraps like adding to the exact sum. */
  lemma WrapAdd(a: int, b: int)
    ensures Wrap(Wrap(a) + b) == Wrap(a + b)
  {
    WrapCongruent(Wrap(a) + b, a + b);
  }

  /** A narrowing cast of an integral double to `int`, which saturates at the bounds. */
  function SaturatingCast(x: int): (r: int)
    ensures IsInt32(r)
    ensures IsInt32(x) ==> r == x
    ensures x > INT_MAX ==> r == INT_MAX
    ensures x < INT_MIN ==> r == INT_MIN
  {
    if x > INT_MAX then INT_MAX else if x < INT_MIN then INT_MIN else x
  }

  /** Java's integer division, which truncates toward zero. */
  function TruncDiv(a: int, b: int): (q: int)
    requires b != 0
    ensures a >= 0 && b > 0 ==> q == a / b
    ensures b > 0 ==> (if a >= 0 then q * b <= a < q * b + b else q * b >= a > q * b - b)
  {
    if a >= 0 then a / b
    else if b > 0 then -((-a) / b)
    else (-a) / (-b)
  }

  /** Number of elements of a Java list that may be null (null counts as empty). */
  function SizeOr<T>(xs: Option<seq<T>>): (n: nat)
    ensures xs.Some? ==> n == |xs.value|
    ensures xs.None? ==> n == 0
  {
    if xs.Some? then |xs.value| else 0
  }

  /** String concatenation renders a null reference as "null". */
  function Rendered(s: Option<string>): (r: string)
    ensures s.Some? ==> r == s.value
  {
    if s.Some? then s.value else "null"
  }
}
