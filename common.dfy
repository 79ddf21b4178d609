/**
 * Shared vocabulary for the model: the C# exceptions the core raises, an
 * Option/Result pair standing in for them, and the 32-bit signed integer
 * arithmetic (`int` in C#, unchecked) that the sources rely on.
 */
module Common {

  /** The exceptions thrown by the modelled code. */
  datatype Error =
    | ArgumentOutOfRange(param: string)   // System.ArgumentOutOfRangeException
    | Argument(reason: string)            // System.ArgumentException
    | Overflow                            // System.OverflowException (negative array size)
    | ObjectDisposed                      // System.ObjectDisposedException (a disposed timer)

  datatype Option<+T> = None | Some(value: T)

  /** A call that either returns a value or throws one of the modelled exceptions. */
  datatype Result<+T> = Success(value: T) | Failure(error: Error)

  /** A call that returns nothing or throws (the `Validate()` extension methods). */
  datatype Outcome = Pass | Fail(error: Error)

  const Int32Min: int := -0x8000_0000
  const Int32Max: int := 0x7FFF_FFFF
  const TwoTo32: int := 0x1_0000_0000

  predicate IsInt32(x: int) {
    Int32Min <= x <= Int32Max
  }

  /** The value an unchecked C# `int` operation yields for the mathematical result `x`. */
  function Wrap32(x: int): (r: int)
    ensures IsInt32(r)
    ensures (x - r) % TwoTo32 == 0
    ensures IsInt32(x) ==> r == x
  {
    var m := x % TwoTo32;
    if m <= Int32Max then m else m - TwoTo32
  }

  /**
   * C#'s `%` on `int`: the quotient truncates toward zero, so the remainder
   * takes the sign of the dividend (Dafny's `%` is Euclidean instead).
   */
  function CsRem(a: int, b: int): (r: int)
    requires b > 0
    ensures a >= 0 ==> 0 <= r < b
    ensures a < 0 ==> -b < r <= 0
    ensures a >= 0 ==> r == a % b
  {
    if a >= 0 then a % b else -((-a) % b)
  }

  /** `Math.Min(hi, Math.Max(lo, v))`. */
  function Clamp(v: int, lo: int, hi: int): (r: int)
    requires lo <= hi
    ensures lo <= r <= hi
    ensures lo <= v <= hi ==> r == v
    ensures v < lo ==> r == lo
    ensures v > hi ==> r == hi
  {
    if v < lo then lo else if v > hi then hi else v
  }

  lemma MulNonNegative(x: int, y: int)
    requires x >= 0 && y >= 0
    ensures x * y >= 0
  {
  }

  lemma MulAtLeast(d: int, q: int)
    requires q >= 1 && d >= 1
    ensures d * q >= q
  {
    assert d * q == (d - 1) * q + q;
    MulNonNegative(d - 1, q);
  }

  /** Quotient and remainder are unique: `a * q + r` with `0 <= r < q` divides as `a` rest `r`. */
  lemma DivModUnique(x: int, q: int, a: int, r: int)
    requires q >= 1 && 0 <= r < q && x == a * q + r
    ensures x / q == a && x % q == r
  {
    var b, s := x / q, x % q;
    assert x == b * q + s && 0 <= s < q;
    assert (a - b) * q == s - r;
    if a - b >= 1 {
      MulAtLeast(a - b, q);
    } else if b - a >= 1 {
      MulAtLeast(b - a, q);
    }
  }

  /** Taking away the remainder leaves a multiple of the divisor. */
  lemma ModDivides(x: int, q: int)
    requires q >= 1
    ensures (x - x % q) % q == 0
  {
    DivModUnique(x - x % q, q, x / q, 0);
  }

  /** Taking the divisor away leaves the remainder as it was. */
  lemma ModSubDivisor(x: int, q: int)
    requires q >= 1
    ensures (x - q) % q == x % q
  {
    DivModUnique(x - q, q, x / q - 1, x % q);
  }

  /** Appending is associative. */
  lemma AppendAssoc<T>(a: seq<T>, b: seq<T>, c: seq<T>)
    ensures (a + b) + c == a + (b + c)
  {
  }

  /** Incrementing a wrapped counter wraps like incrementing the unwrapped one. */
  lemma Wrap32Increment(x: int)
    ensures Wrap32(Wrap32(x) + 1) == Wrap32(x + 1)
  {
    var q, m := x / TwoTo32, x % TwoTo32;
    if m + 1 < TwoTo32 {
      DivModUnique(x + 1, TwoTo32, q, m + 1);
      if m < Int32Max {
        DivModUnique(m + 1, TwoTo32, 0, m + 1);
      } else if m == Int32Max {
        DivModUnique(m + 1, TwoTo32, 0, m + 1);
      }
    } else {
      DivModUnique(x + 1, TwoTo32, q + 1, 0);
    }
  }
}
