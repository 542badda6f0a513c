/** Small vocabulary shared by every component model. */
module Basics {

  datatype Option<+T> = None | Some(value: T)

  datatype Result<+T, +E> = Ok(value: T) | Err(error: E)

  function MaxReal(a: real, b: real): real {
    if a >= b then a else b
  }

  function MinReal(a: real, b: real): real {
    if a <= b then a else b
  }

  function MaxInt(a: int, b: int): int {
    if a >= b then a else b
  }

  function MinInt(a: int, b: int): int {
    if a <= b then a else b
  }

  function Abs(a: real): real {
    if a >= 0.0 then a else -a
  }

  /** The least integer that is not below `x`. */
  function Ceiling(x: real): (c: int)
    ensures (c - 1) as real < x <= c as real
  {
    -((-x).Floor)
  }

  /** A Boolean feature as a number. */
  function Flag(b: bool): real {
    if b then 1.0 else 0.0
  }

  lemma {:induction false} SubsetSize<T>(a: set<T>, b: set<T>)
    requires a <= b
    ensures |a| <= |b|
    decreases a
  {
    if a != {} {
      var x :| x in a;
      SubsetSize(a - {x}, b - {x});
    }
  }

  // Non-linear steps over the reals, taken one at a time.

  lemma ProductSign(a: real, b: real)
    requires b > 0.0
    ensures a > 0.0 <==> a * b > 0.0
    ensures a >= 0.0 <==> a * b >= 0.0
  {
  }

  lemma ProductOrder(a: real, b: real, c: real)
    requires c > 0.0
    ensures a <= b <==> a * c <= b * c
    ensures a < b <==> a * c < b * c
  {
    ProductSign(b - a, c);
    assert (b - a) * c == b * c - a * c;
  }

  lemma Distribute(a: real, b: real, c: real)
    ensures (a + b) * c == a * c + b * c
    ensures (a - b) * c == a * c - b * c
  {
  }

  lemma Quotient(a: real, b: real)
    requires b > 0.0
    ensures (a / b) * b == a
    ensures a > 0.0 <==> a / b > 0.0
    ensures a >= 0.0 <==> a / b >= 0.0
  {
    ProductSign(a / b, b);
  }

  lemma QuotientUnique(a: real, b: real, q: real)
    requires b > 0.0 && q * b == a
    ensures a / b == q
  {
    Quotient(a, b);
    ProductOrder(a / b, q, b);
    ProductOrder(q, a / b, b);
  }

  lemma QuotientOrder(a: real, b: real, c: real)
    requires c > 0.0 && a <= b
    ensures a / c <= b / c
  {
    Quotient(a, c);
    Quotient(b, c);
    ProductOrder(a / c, b / c, c);
  }
}
