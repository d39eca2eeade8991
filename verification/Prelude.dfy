/** Small vocabulary shared by every module: optional values, outcomes, and order on reals. */
module Prelude {

  datatype Option<+T> = None | Some(value: T)

  datatype Result<+T, +E> = Ok(value: T) | Err(error: E)

  function Abs(x: real): real {
    if x < 0.0 then -x else x
  }

  function Min(x: real, y: real): real {
    if x <= y then x else y
  }

  function Max(x: real, y: real): real {
    if x <= y then y else x
  }

  /** A product by name: proofs about sums of products go through faster when the products stay atoms. */
  function Times(a: real, b: real): real {
    a * b
  }

  lemma TimesSign(a: real, b: real)
    requires a >= 0.0 && b >= 0.0
    ensures Times(a, b) >= 0.0
    ensures a > 0.0 && b > 0.0 ==> Times(a, b) > 0.0
  {
  }

  lemma AddOneTimes(n: real, q: real)
    ensures Times(n + 1.0, q) == Times(n, q) + q
  {
  }

  lemma CancelFactor(a: real, b: real, k: real)
    requires k > 0.0 && Times(a, k) <= Times(b, k)
    ensures a <= b
  {
    ProductSign(b - a, k);
    assert (b - a) * k == b * k - a * k;
  }

  lemma ProductSign(a: real, b: real)
    requires b > 0.0
    ensures a >= 0.0 <==> a * b >= 0.0
  {
    if a < 0.0 {
      assert (-a) * b > 0.0;
    }
  }

  /** Comparing a quotient is comparing with the scaled bound. */
  lemma QuotientAtLeast(c: real, t: real, q: real)
    requires t > 0.0
    ensures c / t >= q <==> c >= q * t
  {
    var r := c / t;
    assert r * t == c;
    ProductSign(r - q, t);
    assert (r - q) * t == r * t - q * t;
  }

  lemma QuotientAtMost(c: real, t: real, q: real)
    requires t > 0.0
    ensures c / t <= q <==> c <= q * t
  {
    QuotientAtLeast(-c, t, -q);
    assert (-c) / t == -(c / t) by {
      assert (c / t) * t == c;
      assert (-(c / t)) * t == -c;
    }
  }
}
