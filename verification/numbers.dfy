/** Arithmetic helpers shared by the FX model: `Math.abs`, `Math.max`, `Math.min` and powers of ten. */
module Numbers {

  function Abs(x: real): (r: real)
    ensures r >= 0.0 && (r == x || r == -x)
  {
    if x < 0.0 then -x else x
  }

  function Max(a: real, b: real): (r: real)
    ensures r >= a && r >= b && (r == a || r == b)
  {
    if a >= b then a else b
  }

  function Min(a: real, b: real): (r: real)
    ensures r <= a && r <= b && (r == a || r == b)
  {
    if a <= b then a else b
  }

  /** 10^n for a natural exponent. */
  function IntPow10(n: nat): (r: nat)
    ensures r >= 1
  {
    if n == 0 then 1 else 10 * IntPow10(n - 1)
  }

  /** 10^e for any integer exponent (`Math.pow(10, e)` / `10 ** e`), exactly. */
  function Pow10(e: int): (r: real)
    ensures r > 0.0
  {
    if e >= 0 then IntPow10(e) as real else 1.0 / (IntPow10(-e) as real)
  }

  lemma {:induction false} IntPow10Add(a: nat, b: nat)
    ensures IntPow10(a + b) == IntPow10(a) * IntPow10(b)
  {
    if a > 0 {
      IntPow10Add(a - 1, b);
    }
  }

  /** Raising by one more power multiplies by ten, for every integer exponent. */
  lemma Pow10Succ(e: int)
    ensures Pow10(e + 1) == 10.0 * Pow10(e)
  {
    if e < 0 {
      var n := -e;
      assert IntPow10(n) == 10 * IntPow10(n - 1);
      var d := IntPow10(n - 1) as real;
      assert Pow10(e) == 1.0 / (10.0 * d);
      assert Pow10(e + 1) == 1.0 / d;
    }
  }

  /** Equal factors give equal products (a step the solver's nonlinear reasoning finds costly). */
  lemma MulCongruence(a: real, b: real, c: real, d: real)
    requires a == c && b == d
    ensures a * b == c * d
  {
  }
}
