/**
 * The calculator demonstration (userspace/calculator/src/main.rs): factorial,
 * Fibonacci, trial-division primality, the prime scan of its main routine and
 * its own placeholder formatter.  The program is built in release mode, so
 * u32 multiplication and addition wrap around.
 */
module Calculator {
  import opened Wrappers
  import opened Runtime

  // ---------------------------------------------------------------------------
  // Modular arithmetic used by the wrap-around proofs
  // ---------------------------------------------------------------------------

  lemma MulSign(c: int, m: int)
    requires m > 0
    ensures c >= 1 ==> c * m >= m
    ensures c <= -1 ==> c * m <= -m
  {
    if c >= 1 {
      assert c * m == m + (c - 1) * m;
    } else if c <= -1 {
      assert c * m == -m + (c + 1) * m;
    }
  }

  /** A multiple of m strictly between -m and m is zero. */
  lemma SmallMultipleIsZero(c: int, m: int)
    requires m > 0 && -m < c * m < m
    ensures c == 0
  {
    MulSign(c, m);
  }

  /** The remainder is determined by any quotient-remainder decomposition. */
  lemma ModUnique(n: int, q: int, r: int, m: int)
    requires m > 0 && 0 <= r < m && n == q * m + r
    ensures n % m == r
  {
    var q' := n / m;
    var r' := n % m;
    assert (q - q') * m == r' - r;
    SmallMultipleIsZero(q - q', m);
  }

  lemma ModOfMultiplePlus(k: int, b: int, m: int)
    requires m > 0
    ensures (k * m + b) % m == b % m
  {
    var q := b / m;
    var r := b % m;
    assert k * m + b == (k + q) * m + r;
    ModUnique(k * m + b, k + q, r, m);
  }

  lemma MulModLeft(x: nat, i: nat, m: nat)
    requires m > 0
    ensures ((x % m) * i) % m == (x * i) % m
  {
    var q := x / m;
    assert x == q * m + x % m;
    assert x * i == (q * i) * m + (x % m) * i;
    ModOfMultiplePlus(q * i, (x % m) * i, m);
  }

  lemma AddMod(x: nat, y: nat, m: nat)
    requires m > 0
    ensures (x % m + y % m) % m == (x + y) % m
  {
    assert x == (x / m) * m + x % m;
    assert y == (y / m) * m + y % m;
    assert x + y == (x / m + y / m) * m + (x % m + y % m);
    ModOfMultiplePlus(x / m + y / m, x % m + y % m, m);
  }

  // ---------------------------------------------------------------------------
  // calculate_factorial
  // ---------------------------------------------------------------------------

  function Factorial(n: nat): (r: nat)
    ensures r >= 1
  {
    if n <= 1 then 1 else n * Factorial(n - 1)
  }

  lemma {:induction false} FactorialMonotone(m: nat, n: nat)
    requires m <= n
    ensures Factorial(m) <= Factorial(n)
    decreases n - m
  {
    if m < n {
      FactorialMonotone(m, n - 1);
      assert Factorial(n) == n * Factorial(n - 1);
      MulSign(n, Factorial(n - 1));
    }
  }

  /**
   * calculate_factorial: 1 for n <= 1, otherwise the product 2 * 3 * ... * n
   * accumulated with wrap-around multiplication, i.e. n! modulo 2^32.
   */
  method CalculateFactorial(n: U32) returns (r: U32)
    ensures r == Factorial(n) % U32_BOUND
    ensures n <= 12 ==> r == Factorial(n)
  {
    if n <= 1 {
      return 1;
    }
    var result: U32 := 1;
    var i: nat := 2;
    while i <= n
      invariant 2 <= i <= n + 1
      invariant result == Factorial(i - 1) % U32_BOUND
    {
      MulModLeft(Factorial(i - 1), i, U32_BOUND);
      assert Factorial(i) == Factorial(i - 1) * i;
      assert (result * i) % U32_BOUND == Factorial(i) % U32_BOUND;
      result := ToU32(result * i);
      i := i + 1;
    }
    r := result;
    FactorialExactUpTo12(n);
  }

  /** 12! is the largest factorial a u32 holds; 13! wraps. */
  lemma FactorialExactUpTo12(n: nat)
    ensures n <= 12 ==> Factorial(n) < U32_BOUND
    ensures n >= 13 ==> Factorial(n) >= U32_BOUND
  {
    assert Factorial(13) == 6227020800 by {
      assert Factorial(4) == 24;
      assert Factorial(8) == 40320;
      assert Factorial(12) == 479001600;
    }
    if n <= 12 {
      FactorialMonotone(n, 12);
    } else {
      FactorialMonotone(13, n);
    }
  }

  // ---------------------------------------------------------------------------
  // fibonacci
  // ---------------------------------------------------------------------------

  function Fib(n: nat): nat
  {
    if n < 2 then n else Fib(n - 1) + Fib(n - 2)
  }

  lemma {:induction false} FibMonotone(m: nat, n: nat)
    requires m <= n
    ensures Fib(m) <= Fib(n)
    decreases n - m
  {
    if m < n {
      FibMonotone(m, n - 1);
    }
  }

  /**
   * fibonacci: iterative, despite its doc comment; F(0) = 0, F(1) = 1 and the
   * pair (a, b) advances with wrap-around addition, giving F(n) modulo 2^32.
   */
  method Fibonacci(n: U32) returns (r: U32)
    ensures r == Fib(n) % U32_BOUND
    ensures n <= 47 ==> r == Fib(n)
  {
    if n <= 1 {
      return n;
    }
    var a: U32 := 0;
    var b: U32 := 1;
    var i: nat := 2;
    while i <= n
      invariant 2 <= i <= n + 1
      invariant a == Fib(i - 2) % U32_BOUND && b == Fib(i - 1) % U32_BOUND
    {
      FibStep(i, a, b);
      var temp := ToU32(a + b);
      a := b;
      b := temp;
      i := i + 1;
    }
    r := b;
    FibExactUpTo47(n);
  }

  /** One wrap-around addition of the loop advances the pair modulo 2^32. */
  lemma FibStep(i: nat, a: U32, b: U32)
    requires i >= 2 && a == Fib(i - 2) % U32_BOUND && b == Fib(i - 1) % U32_BOUND
    ensures ToU32(a + b) == Fib(i) % U32_BOUND
  {
    AddMod(Fib(i - 2), Fib(i - 1), U32_BOUND);
    assert Fib(i) == Fib(i - 2) + Fib(i - 1);
  }

  /** F(47) is the largest Fibonacci number a u32 holds; F(48) wraps. */
  lemma FibExactUpTo47(n: nat)
    ensures n <= 47 ==> Fib(n) < U32_BOUND
    ensures n >= 48 ==> Fib(n) >= U32_BOUND
  {
    FibValues();
    if n <= 47 {
      FibMonotone(n, 47);
    } else {
      FibMonotone(48, n);
    }
  }

  lemma FibValues()
    ensures Fib(47) == 2971215073 && Fib(48) == 4807526976
  {
    assert Fib(2) == 1;
    assert Fib(3) == 2;
    assert Fib(4) == 3;
    assert Fib(5) == 5;
    assert Fib(6) == 8;
    assert Fib(7) == 13;
    assert Fib(8) == 21;
    assert Fib(9) == 34;
    assert Fib(10) == 55;
    assert Fib(11) == 89;
    assert Fib(12) == 144;
    assert Fib(13) == 233;
    assert Fib(14) == 377;
    assert Fib(15) == 610;
    assert Fib(16) == 987;
    assert Fib(17) == 1597;
    assert Fib(18) == 2584;
    assert Fib(19) == 4181;
    assert Fib(20) == 6765;
    assert Fib(21) == 10946;
    assert Fib(22) == 17711;
    assert Fib(23) == 28657;
    assert Fib(24) == 46368;
    assert Fib(25) == 75025;
    assert Fib(26) == 121393;
    assert Fib(27) == 196418;
    assert Fib(28) == 317811;
    assert Fib(29) == 514229;
    assert Fib(30) == 832040;
    assert Fib(31) == 1346269;
    assert Fib(32) == 2178309;
    assert Fib(33) == 3524578;
    assert Fib(34) == 5702887;
    assert Fib(35) == 9227465;
    assert Fib(36) == 14930352;
    assert Fib(37) == 24157817;
    assert Fib(38) == 39088169;
    assert Fib(39) == 63245986;
    assert Fib(40) == 102334155;
    assert Fib(41) == 165580141;
    assert Fib(42) == 267914296;
    assert Fib(43) == 433494437;
    assert Fib(44) == 701408733;
    assert Fib(45) == 1134903170;
    assert Fib(46) == 1836311903;
    assert Fib(47) == 2971215073;
    assert Fib(48) == 4807526976;
  }

  // ---------------------------------------------------------------------------
  // is_prime
  // ---------------------------------------------------------------------------

  predicate IsPrimeNumber(n: nat)
  {
    n >= 2 && forall d :: 2 <= d < n ==> n % d != 0
  }

  /** An odd number has no even divisor. */
  lemma OddHasNoEvenDivisor(n: nat, d: nat)
    requires n % 2 == 1 && d >= 2 && d % 2 == 0
    ensures n % d != 0
  {
    if n % d == 0 {
      var q := n / d;
      var h := d / 2;
      assert n == q * d;
      assert n == (q * h) * 2 + 0;
      ModUnique(n, q * h, 0, 2);
      assert false;
    }
  }

  /**
   * Trial division up to the square root suffices: a number with no divisor
   * below i, where i * i exceeds it, is prime.
   */
  lemma PrimeBySmallDivisors(n: nat, i: nat)
    requires n >= 2 && i * i > n
    requires forall d :: 2 <= d < i ==> n % d != 0
    ensures IsPrimeNumber(n)
  {
    forall d | 2 <= d < n
      ensures n % d != 0
    {
      if n % d == 0 {
        var q := n / d;
        assert n == d * q;
        assert q >= 1;
        assert q >= 2;
        assert n % q == 0 by {
          assert n == d * q + 0;
          assert n == q * d + 0;
          ModUnique(n, d, 0, q);
        }
        if d >= i && q >= i {
          MulMonotone(i, d, i, q);
        }
        assert false;
      }
    }
  }

  lemma SquareMonotone(i: nat, k: nat)
    ensures i >= k ==> i * i >= k * k
  {
    if i >= k {
      MulMonotone(k, i, k, i);
    }
  }

  lemma ExtendTrialDivision(n: nat, i: nat)
    requires n % 2 == 1 && i % 2 == 1 && n % i != 0
    requires forall d :: 2 <= d < i ==> n % d != 0
    ensures forall d :: 2 <= d < i + 2 ==> n % d != 0
  {
    OddHasNoEvenDivisor(n, i + 1);
  }

  /** One more odd trial divisor that does not divide n: the loop may go on. */
  lemma TrialStep(n: nat, i: nat)
    requires n < PRIME_LIMIT && n % 2 == 1 && i * i <= n && 3 <= i && i % 2 == 1 && n % i != 0
    requires forall d :: 2 <= d < i ==> n % d != 0
    ensures i + 2 <= 65535
    ensures forall d :: 2 <= d < i + 2 ==> n % d != 0
  {
    SquareMonotone(i, 65535);
    ExtendTrialDivision(n, i);
  }

  /** The largest argument for which the loop's `i * i` stays within u32. */
  const PRIME_LIMIT: nat := 65535 * 65535

  /**
   * is_prime: false below 2, true for 2, false for other even numbers, then
   * trial division by odd i while i * i <= n.
   */
  method IsPrime(n: U32) returns (r: bool)
    requires n < PRIME_LIMIT
    ensures r <==> IsPrimeNumber(n)
  {
    if n < 2 {
      return false;
    }
    if n == 2 {
      PrimeBySmallDivisors(2, 2);
      return true;
    }
    if n % 2 == 0 {
      return false;
    }
    var i: nat := 3;
    while i * i <= n
      invariant 3 <= i && i % 2 == 1 && i <= 65535
      invariant forall d :: 2 <= d < i ==> n % d != 0
      decreases 65535 - i
    {
      if n % i == 0 {
        return false;
      }
      TrialStep(n, i);
      i := i + 2;
    }
    PrimeBySmallDivisors(n, i);
    return true;
  }

  // ---------------------------------------------------------------------------
  // The prime scan of main: `for num in 2..20 { if is_prime(num) { ... } }`
  // ---------------------------------------------------------------------------

  /** The primes in [lo, hi), in increasing order. */
  function PrimesBetween(lo: nat, hi: nat): seq<nat>
    decreases hi
  {
    if hi <= lo then [] else PrimesBetween(lo, hi - 1) + (if IsPrimeNumber(hi - 1) then [hi - 1] else [])
  }

  /** Reports the numbers of 2..19 that is_prime accepts, in scan order. */
  method PrimeScan() returns (reported: seq<nat>)
    ensures reported == [2, 3, 5, 7, 11, 13, 17, 19]
  {
    reported := [];
    var num: nat := 2;
    while num < 20
      invariant 2 <= num <= 20
      invariant reported == PrimesBetween(2, num)
    {
      var p := IsPrime(num);
      if p {
        reported := reported + [num];
      }
      num := num + 1;
    }
    PrimesBelowTwenty();
  }

  lemma PrimesBelowTwenty()
    ensures PrimesBetween(2, 20) == [2, 3, 5, 7, 11, 13, 17, 19]
  {
    PrimesBelowTen();
    SmallPrimesAboveTen();
    assert !IsPrimeNumber(10) by { assert 10 % 2 == 0; }
    assert !IsPrimeNumber(12) by { assert 12 % 2 == 0; }
    assert !IsPrimeNumber(14) by { assert 14 % 2 == 0; }
    assert !IsPrimeNumber(15) by { assert 15 % 3 == 0; }
    assert !IsPrimeNumber(16) by { assert 16 % 2 == 0; }
    assert !IsPrimeNumber(18) by { assert 18 % 2 == 0; }
    assert PrimesBetween(2, 11) == [2, 3, 5, 7];
    assert PrimesBetween(2, 12) == [2, 3, 5, 7, 11];
    assert PrimesBetween(2, 13) == [2, 3, 5, 7, 11];
    assert PrimesBetween(2, 14) == [2, 3, 5, 7, 11, 13];
    assert PrimesBetween(2, 15) == [2, 3, 5, 7, 11, 13];
    assert PrimesBetween(2, 16) == [2, 3, 5, 7, 11, 13];
    assert PrimesBetween(2, 17) == [2, 3, 5, 7, 11, 13];
    assert PrimesBetween(2, 18) == [2, 3, 5, 7, 11, 13, 17];
    assert PrimesBetween(2, 19) == [2, 3, 5, 7, 11, 13, 17];
  }

  lemma PrimesBelowTen()
    ensures PrimesBetween(2, 10) == [2, 3, 5, 7]
  {
    SmallPrimesBelowTen();
    assert !IsPrimeNumber(4) by { assert 4 % 2 == 0; }
    assert !IsPrimeNumber(6) by { assert 6 % 2 == 0; }
    assert !IsPrimeNumber(8) by { assert 8 % 2 == 0; }
    assert !IsPrimeNumber(9) by { assert 9 % 3 == 0; }
    assert PrimesBetween(2, 3) == [2];
    assert PrimesBetween(2, 4) == [2, 3];
    assert PrimesBetween(2, 5) == [2, 3];
    assert PrimesBetween(2, 6) == [2, 3, 5];
    assert PrimesBetween(2, 7) == [2, 3, 5];
    assert PrimesBetween(2, 8) == [2, 3, 5, 7];
    assert PrimesBetween(2, 9) == [2, 3, 5, 7];
  }

  lemma SmallPrimesBelowTen()
    ensures IsPrimeNumber(2) && IsPrimeNumber(3) && IsPrimeNumber(5) && IsPrimeNumber(7)
  {
    PrimeBySmallDivisors(2, 2);
    PrimeBySmallDivisors(3, 2);
    PrimeBySmallDivisors(5, 3);
    PrimeBySmallDivisors(7, 3);
  }

  lemma SmallPrimesAboveTen()
    ensures IsPrimeNumber(11) && IsPrimeNumber(13) && IsPrimeNumber(17) && IsPrimeNumber(19)
  {
    forall d | 2 <= d < 4 ensures 11 % d != 0 && 13 % d != 0 {
      assert d == 2 || d == 3;
    }
    PrimeBySmallDivisors(11, 4);
    PrimeBySmallDivisors(13, 4);
    forall d | 2 <= d < 5 ensures 17 % d != 0 && 19 % d != 0 {
      assert d == 2 || d == 3 || d == 4;
    }
    PrimeBySmallDivisors(17, 5);
    PrimeBySmallDivisors(19, 5);
  }

  // ---------------------------------------------------------------------------
  // The calculator's own format
  // ---------------------------------------------------------------------------

  /**
   * What the calculator's format pushes, before truncation: outside a
   * placeholder every char but `{` is copied and `{` opens one; inside, every
   * char is dropped until `}`, which closes it and emits the value.  A stray
   * `}` outside a placeholder is copied.
   */
  function ExpandSpans(t: seq<char>, vs: seq<char>, inside: bool): seq<char>
    decreases |t|
  {
    if t == [] then []
    else if t[0] == '{' && !inside then ExpandSpans(t[1..], vs, true)
    else if t[0] == '}' && inside then vs + ExpandSpans(t[1..], vs, false)
    else if !inside then [t[0]] + ExpandSpans(t[1..], vs, false)
    else ExpandSpans(t[1..], vs, true)
  }

  predicate NoCloseBrace(s: seq<char>)
  {
    forall i :: 0 <= i < |s| ==> s[i] != '}'
  }

  /** Inside a placeholder, everything up to the closing brace is dropped. */
  lemma {:induction false} ExpandSpansSkips(x: seq<char>, rest: seq<char>, vs: seq<char>)
    requires NoCloseBrace(x)
    ensures ExpandSpans(x + rest, vs, true) == ExpandSpans(rest, vs, true)
    decreases |x|
  {
    if x == [] {
      assert x + rest == rest;
    } else {
      assert (x + rest)[0] == x[0];
      assert (x + rest)[1..] == x[1..] + rest;
      ExpandSpansSkips(x[1..], rest, vs);
    }
  }

  /** Each `{...}` span, whatever it holds, is replaced by the value. */
  lemma ExpandSpansReplacesSpan(x: seq<char>, rest: seq<char>, vs: seq<char>)
    requires NoCloseBrace(x)
    ensures ExpandSpans("{" + x + "}" + rest, vs, false) == vs + ExpandSpans(rest, vs, false)
  {
    var t := "{" + x + "}" + rest;
    assert t[1..] == x + ("}" + rest);
    ExpandSpansSkips(x, "}" + rest, vs);
    assert ("}" + rest)[1..] == rest;
  }

  /** A `{` that is never closed drops the rest of the template. */
  lemma ExpandSpansUnclosed(x: seq<char>, vs: seq<char>)
    requires NoCloseBrace(x)
    ensures ExpandSpans("{" + x, vs, false) == []
  {
    assert ("{" + x)[1..] == x + [];
    ExpandSpansSkips(x, [], vs);
  }

  /** A `}` outside a placeholder is copied. */
  lemma ExpandSpansStrayClose(rest: seq<char>, vs: seq<char>)
    ensures ExpandSpans("}" + rest, vs, false) == "}" + ExpandSpans(rest, vs, false)
  {
    assert ("}" + rest)[1..] == rest;
  }

  /** Unlike the runtime's format, the calculator's replaces `{x}` too. */
  lemma FormattersDiffer(vs: seq<char>)
    ensures ExpandSpans("{x}", vs, false) == vs
    ensures Expand("{x}", vs) == "{x}"
  {
    ExpandSpansReplacesSpan("x", [], vs);
    assert "{" + "x" + "}" + [] == "{x}";
    assert "{x}"[2..] == "}";
  }

  /**
   * One char of the template walk: what it pushes and whether a placeholder
   * is open after it.
   */
  method NextSpan(template: seq<char>, i: nat, valueStr: seq<char>, inside: bool)
    returns (piece: seq<char>, inside': bool)
    requires i < |template|
    ensures ExpandSpans(template[i..], valueStr, inside) == piece + ExpandSpans(template[i + 1..], valueStr, inside')
  {
    var ch := template[i];
    assert template[i..][0] == ch;
    assert template[i..][1..] == template[i + 1..];
    piece := [];
    inside' := inside;
    if ch == '{' && !inside {
      inside' := true;
    } else if ch == '}' && inside {
      piece := valueStr;
      inside' := false;
    } else if !inside {
      piece := [ch];
    }
  }

  /** format: the value's decimal text, substituted into the template. */
  method Format(template: seq<char>, value: U32) returns (r: seq<char>)
    ensures r == PushAll([], 64, ExpandSpans(template, Decimal(value), false))
  {
    var valueStr := FormatU32(value);
    r := FillSpans(template, valueStr);
  }

  /** One pass over the template with a found_placeholder flag, into 64 bytes. */
  method FillSpans(template: seq<char>, valueStr: seq<char>) returns (r: seq<char>)
    ensures r == PushAll([], 64, ExpandSpans(template, valueStr, false))
  {
    r := [];
    ghost var emitted: seq<char> := [];
    var foundPlaceholder := false;
    var i := 0;
    assert template[0..] == template;
    assert [] + ExpandSpans(template, valueStr, false) == ExpandSpans(template, valueStr, false);
    while i < |template|
      invariant 0 <= i <= |template|
      invariant ExpandSpans(template, valueStr, false)
             == emitted + ExpandSpans(template[i..], valueStr, foundPlaceholder)
      invariant r == PushAll([], 64, emitted)
    {
      var piece, found' := NextSpan(template, i, valueStr, foundPlaceholder);
      ghost var tail := ExpandSpans(template[i + 1..], valueStr, found');
      assert emitted + (piece + tail) == (emitted + piece) + tail;
      foundPlaceholder := found';
      PushAllAppend([], 64, emitted, piece);
      r := PushStr(r, 64, piece);
      emitted := emitted + piece;
      i := i + 1;
    }
    assert template[i..] == [];
    assert ExpandSpans([], valueStr, foundPlaceholder) == [];
    assert emitted + [] == emitted;
  }
}
