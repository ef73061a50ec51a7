// Vocabulary shared by every module of the project.
module Prelude {

  datatype Option<+T> = None | Some(value: T) {
    function GetOr(default: T): T {
      match this
      case Some(v) => v
      case None => default
    }
  }

  function Max(a: real, b: real): real {
    if a >= b then a else b
  }

  function Min(a: real, b: real): real {
    if a <= b then a else b
  }

  function Abs(a: real): real {
    if a >= 0.0 then a else -a
  }

  /** The integer nearest to `x`, ties going to the even neighbour, as Python's round() does. */
  function RoundHalfEven(x: real): (n: int)
    ensures Abs(x - n as real) <= 0.5
  {
    var f := x.Floor;
    var frac := x - f as real;
    if frac < 0.5 then f
    else if frac > 0.5 then f + 1
    else if f % 2 == 0 then f
    else f + 1
  }

  /** Rounding never crosses an integer: it is monotone against integer bounds. */
  lemma RoundWithinIntegers(x: real, lo: int, hi: int)
    requires lo as real <= x <= hi as real
    ensures lo <= RoundHalfEven(x) <= hi
  {
  }

  /** Moving a positive divisor across an inequality. */
  lemma QuotientAtMost(a: real, b: real, q: real)
    requires b > 0.0
    ensures a / b <= q <==> a <= q * b
  {
    var r := a / b;
    assert r * b == a;
    if r <= q {
      assert (q - r) * b >= 0.0;
    } else {
      assert (r - q) * b > 0.0;
    }
  }

  lemma QuotientBelow(a: real, b: real, q: real)
    requires b > 0.0
    ensures a / b < q <==> a < q * b
  {
    var r := a / b;
    assert r * b == a;
    if r < q {
      assert (q - r) * b > 0.0;
    } else {
      assert (r - q) * b >= 0.0;
    }
  }
}
