/** `Math.floor(a / b)` and `Math.ceil(a / b)` on integers with a positive
    divisor, characterised by the bounds that define them. */
module JsMath {

  /** `Math.floor(a / b)`: the largest q with q * b <= a. */
  function FloorDiv(a: int, b: int): (q: int)
    requires b > 0
    ensures q * b <= a < (q + 1) * b
  {
    a / b
  }

  /** `Math.ceil(a / b)`: the smallest q with a <= q * b. */
  function CeilDiv(a: int, b: int): (q: int)
    requires b > 0
    ensures (q - 1) * b < a <= q * b
  {
    var m := (-a) / b;
    assert m * b <= -a < (m + 1) * b;
    -m
  }

  /** Only one integer lies between the bounds, so the bounds pin the result. */
  lemma FloorDivUnique(a: int, b: int, q: int)
    requires b > 0 && q * b <= a < (q + 1) * b
    ensures q == FloorDiv(a, b)
  {
    var f := FloorDiv(a, b);
    if q < f {
      assert (q + 1) * b <= f * b by { MulMonotone(q + 1, f, b); }
    } else if q > f {
      assert (f + 1) * b <= q * b by { MulMonotone(f + 1, q, b); }
    }
  }

  /** Only one integer lies between the bounds, so the bounds pin the result. */
  lemma CeilDivUnique(a: int, b: int, q: int)
    requires b > 0 && (q - 1) * b < a <= q * b
    ensures q == CeilDiv(a, b)
  {
    var c := CeilDiv(a, b);
    if q < c {
      assert q * b <= (c - 1) * b by { MulMonotone(q, c - 1, b); }
    } else if q > c {
      assert c * b <= (q - 1) * b by { MulMonotone(c, q - 1, b); }
    }
  }

  lemma MulMonotone(x: int, y: int, b: int)
    requires x <= y && b > 0
    ensures x * b <= y * b
  {
    assert y * b - x * b == (y - x) * b;
  }
}
