/** Small shared vocabulary: optional values (pandas' NaN / Python's None),
    results with an error side, and real arithmetic helpers. */
module Common {

  /** `None` stands for a missing value: NaN in a numeric column, or Python's None. */
  datatype Option<+T> = None | Some(value: T)

  /** A value or the error an operation reports instead of raising. */
  datatype Result<+T, +E> = Ok(value: T) | Err(error: E)

  function Abs(x: real): (r: real)
    ensures r >= 0.0
    ensures r == x || r == -x
  {
    if x < 0.0 then -x else x
  }

  function MinInt(a: int, b: int): (r: int)
    ensures r <= a && r <= b
    ensures r == a || r == b
  {
    if a <= b then a else b
  }

  function MaxReal(a: real, b: real): (r: real)
    ensures r >= a && r >= b
    ensures r == a || r == b
  {
    if a >= b then a else b
  }

  /** Multiplying by a non-negative factor keeps an order. */
  lemma MulMonotone(a: real, b: real, c: real)
    requires a <= b && c >= 0.0
    ensures a * c <= b * c
  {
    assert b * c - a * c == (b - a) * c;
  }

  /** Multiplying by a positive factor keeps a strict order. */
  lemma MulStrict(a: real, b: real, c: real)
    requires a < b && c > 0.0
    ensures a * c < b * c
  {
    assert b * c - a * c == (b - a) * c;
  }

  /** A number times d giving x is x divided by d. */
  lemma DivUnique(b: real, x: real, d: real)
    requires d != 0.0 && b * d == x
    ensures b == x / d
  {
    var c := x / d;
    assert c * d == x;
    assert (b - c) * d == 0.0;
  }

  /** Dividing by p and then by q is dividing by their product. */
  lemma DivTwice(x: real, p: real, q: real)
    requires p > 0.0 && q > 0.0
    ensures x / p / q == x / (q * p)
  {
    var a := x / p;
    var b := a / q;
    assert a * p == x;
    assert b * q == a;
    assert b * (q * p) == (b * q) * p;
    DivUnique(b, x, q * p);
  }

  /** Cross-multiplied equal fractions are equal. */
  lemma SameQuotient(a: real, b: real, c: real, d: real)
    requires b != 0.0 && d != 0.0 && a * d == c * b
    ensures a / b == c / d
  {
    var x, y := a / b, c / d;
    assert x * b == a && y * d == c;
    assert (x - y) * (b * d) == 0.0 by {
      assert x * b * d == a * d;
      assert y * d * b == c * b;
    }
    assert b * d != 0.0;
  }

  /** x raised to the natural power n. */
  function Pow(x: real, n: nat): real
    decreases n
  {
    if n == 0 then 1.0 else x * Pow(x, n - 1)
  }

  lemma {:induction false} PowPositive(x: real, n: nat)
    requires x > 0.0
    ensures Pow(x, n) > 0.0
    decreases n
  {
    if n > 0 {
      PowPositive(x, n - 1);
    }
  }

  /** x multiplied n times by `1 + rate`: growth compounded over n periods. */
  function Grown(x: real, rate: real, n: nat): real
    decreases n
  {
    if n == 0 then x else Grown(x, rate, n - 1) * (1.0 + rate)
  }

  /** Compounding forward is multiplying by the n-th power of `1 + rate`. */
  lemma {:induction false} GrownIsPower(x: real, rate: real, n: nat)
    ensures Grown(x, rate, n) == x * Pow(1.0 + rate, n)
    decreases n
  {
    if n > 0 {
      GrownIsPower(x, rate, n - 1);
      assert x * Pow(1.0 + rate, n - 1) * (1.0 + rate) == x * ((1.0 + rate) * Pow(1.0 + rate, n - 1));
    }
  }
}
