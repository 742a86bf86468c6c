/** Option and the 32-bit helpers shared by every module of the model. */
module Wrappers {

  /** The conventional Some/None datatype, used where the source has a nullable pointer. */
  datatype Option<+T> = None | Some(value: T)

  /** A Rust `Result`: a value, or an error payload. */
  datatype Result<+T, +E> = Ok(value: T) | Err(error: E)

  /** 2^32: the number of distinct `uint32_t` values. */
  const U32_BOUND: int := 0x1_0000_0000

  /** `uint32_t` as a subset of the integers. */
  type U32 = x: int | 0 <= x < U32_BOUND

  /** The C conversion `(uint32_t)x` of any integer, reduced modulo 2^32. */
  function ToU32(x: int): (r: U32)
    ensures -U32_BOUND <= x < 0 ==> r == x + U32_BOUND
    ensures 0 <= x < U32_BOUND ==> r == x
  {
    x % U32_BOUND
  }

  /** `a + b` on `uint32_t`: the sum, less 2^32 when it does not fit. */
  function AddU32(a: U32, b: U32): (r: U32)
    ensures a + b < U32_BOUND ==> r == a + b
    ensures r < a ==> a + b >= U32_BOUND
  {
    if a + b < U32_BOUND then a + b else a + b - U32_BOUND
  }

  /** `a - b` on `uint32_t`: the difference, plus 2^32 when it is negative. */
  function SubU32(a: U32, b: U32): (r: U32)
    ensures a >= b ==> r == a - b
    ensures a < b ==> r > a
  {
    if a >= b then a - b else a - b + U32_BOUND
  }

  /** Adding one more after adding k is adding k + 1, wrap-around included. */
  lemma AddU32Succ(t: U32, k: U32)
    requires k + 1 < U32_BOUND
    ensures AddU32(AddU32(t, k), 1) == AddU32(t, k + 1)
  {
  }

  /** Reducing a partial sum modulo 2^32 before adding more does not change the reduced total. */
  lemma ToU32Add(x: int, y: int)
    ensures ToU32(ToU32(x) + y) == ToU32(x + y)
  {
    var q := x / U32_BOUND;
    assert x == q * U32_BOUND + ToU32(x);
    ModShift(x + y, q);
  }

  /** Taking q multiples of 2^32 away leaves the remainder modulo 2^32 alone. */
  lemma {:induction false} ModShift(a: int, q: int)
    ensures (a - q * U32_BOUND) % U32_BOUND == a % U32_BOUND
    decreases if q < 0 then -q else q
  {
    if q > 0 {
      ModShift(a, q - 1);
      assert a - q * U32_BOUND == (a - (q - 1) * U32_BOUND) - U32_BOUND;
    } else if q < 0 {
      ModShift(a, q + 1);
      assert a - q * U32_BOUND == (a - (q + 1) * U32_BOUND) + U32_BOUND;
    }
  }

  /** The list without its element at position i: what unlinking the i-th node of a list leaves. */
  function RemoveAt<T>(l: seq<T>, i: nat): (r: seq<T>)
    requires i < |l|
    ensures |r| == |l| - 1
    ensures multiset(r) + multiset{l[i]} == multiset(l)
  {
    assert l == l[..i] + [l[i]] + l[i + 1..];
    l[..i] + l[i + 1..]
  }

  /** The C conversion of a `uint32_t` id to the `int` a function returns: ids from 2^31 up come out negative. */
  function AsInt(x: U32): (r: int)
    ensures -0x8000_0000 <= r < 0x8000_0000
    ensures ToU32(r) == x
  {
    if x < 0x8000_0000 then x else x - U32_BOUND
  }

  /** Products of naturals grow with both factors. */
  lemma MulMonotone(a: nat, b: nat, c: nat, d: nat)
    requires a <= b && c <= d
    ensures a * c <= b * d
  {
    assert a * c <= b * c;
    assert b * c <= b * d;
  }

  /** 2^k, the size of a power-of-two block. */
  function Pow2(k: nat): (r: nat)
    ensures r >= 1
  {
    if k == 0 then 1 else 2 * Pow2(k - 1)
  }

  /** The next power of two is twice the last. */
  lemma Pow2Double(k: nat)
    ensures Pow2(k + 1) == 2 * Pow2(k)
  {
  }

  /** Powers of two multiply by adding exponents. */
  lemma {:induction false} Pow2Add(a: nat, b: nat)
    ensures Pow2(a + b) == Pow2(a) * Pow2(b)
  {
    if b > 0 {
      Pow2Add(a, b - 1);
      calc {
        Pow2(a + b);
        2 * Pow2(a + (b - 1));
        2 * (Pow2(a) * Pow2(b - 1));
        Pow2(a) * (2 * Pow2(b - 1));
        Pow2(a) * Pow2(b);
      }
    }
  }

  lemma Pow2Monotone(j: nat, k: nat)
    requires j <= k
    ensures Pow2(j) <= Pow2(k)
  {
    Pow2Add(j, k - j);
  }
}
