/**
  Kotlin's `Int`: a 32-bit two's-complement integer whose `plus` wraps around.
  The score of the game is such an `Int`, and so is the constant added to it.
 */
module Int32 {

  const MIN: int := -0x8000_0000
  const MAX: int := 0x7FFF_FFFF
  const MODULUS: int := 0x1_0000_0000

  type int32 = x: int | MIN <= x <= MAX

  /** The value a 32-bit `Int` ends up holding for the mathematical integer `x`. */
  function Wrap(x: int): (r: int32)
    ensures (r - x) % MODULUS == 0
    ensures MIN <= x <= MAX ==> r == x
  {
    var q := (x - MIN) / MODULUS;
    assert x - MIN == q * MODULUS + (x - MIN) % MODULUS;
    (x - MIN) % MODULUS + MIN
  }

  /** Kotlin's `Int.plus`: the sum, wrapped into 32 bits. */
  function Plus(a: int32, b: int32): (r: int32)
    ensures (r - (a + b)) % MODULUS == 0
    ensures MIN <= a + b <= MAX ==> r == a + b
  {
    Wrap(a + b)
  }

  /** Two 32-bit values that agree modulo 2^32 are the same value. */
  lemma CongruentInRangeEqual(r: int32, t: int32)
    requires (r - t) % MODULUS == 0
    ensures r == t
  {
    var q := (r - t) / MODULUS;
    assert r - t == q * MODULUS;
  }

  lemma SumOfMultiples(a: int, b: int)
    requires a % MODULUS == 0 && b % MODULUS == 0
    ensures (a + b) % MODULUS == 0
  {
    var p, q := a / MODULUS, b / MODULUS;
    assert a == p * MODULUS;
    assert b == q * MODULUS;
    assert a + b == (p + q) * MODULUS;
  }

  /** Wrapping part-way through a sum does not change the wrapped total. */
  lemma {:induction false} WrapAdd(x: int, y: int)
    ensures Wrap(Wrap(x) + y) == Wrap(x + y)
  {
    var r, t := Wrap(Wrap(x) + y), Wrap(x + y);
    SumOfMultiples(r - (Wrap(x) + y), Wrap(x) - x);
    assert (r - (x + y)) % MODULUS == 0;
    SumOfMultiples(r - (x + y), (x + y) - t);
    CongruentInRangeEqual(r, t);
  }

  /** Adding to a score that counts n steps of `inc` gives the count of n + 1 steps. */
  lemma {:induction false} PlusCounts(n: nat, inc: int32)
    ensures Plus(Wrap(n * inc), inc) == Wrap((n + 1) * inc)
  {
    WrapAdd(n * inc, inc);
    assert n * inc + inc == (n + 1) * inc;
  }

  /** While n steps of a non-negative `inc` stay within bounds, no wrap-around occurs. */
  lemma {:induction false} CountWithoutWrap(n: nat, bound: nat, inc: int32)
    requires n <= bound && 0 <= inc && bound * inc <= MAX
    ensures Wrap(n * inc) == n * inc
  {
    MulMonotone(n, bound, inc);
  }

  lemma {:induction false} MulMonotone(n: nat, bound: nat, k: nat)
    requires n <= bound
    ensures n * k <= bound * k
    decreases bound - n
  {
    if n < bound {
      MulMonotone(n + 1, bound, k);
      assert (n + 1) * k == n * k + k;
    }
  }
}
