/** A weighted mean lies between the least and the greatest of what it weighs. */
module Averages {
  lemma PriceBetween(low: real, price: real, high: real, q: real)
    requires low <= price <= high && q >= 0.0
    ensures low * q <= price * q <= high * q
  {
    assert (price - low) * q >= 0.0 && (high - price) * q >= 0.0;
  }

  lemma QuotientBetween(low: real, n: real, high: real, q: real)
    requires q > 0.0 && low * q <= n <= high * q
    ensures low <= n / q <= high
  {
    var x := n / q;
    assert (x - low) * q == n - low * q && (high - x) * q == high * q - n;
    Positive(x - low, q);
    Positive(high - x, q);
  }

  lemma Positive(a: real, q: real)
    requires q > 0.0 && a * q >= 0.0
    ensures a >= 0.0
  {
  }

  lemma MeanBetween(low: real, high: real, a: real, wa: real, b: real, wb: real)
    requires low <= a <= high && low <= b <= high && wa > 0.0 && wb > 0.0
    ensures low <= (wa * a + wb * b) / (wa + wb) <= high
  {
    PriceBetween(low, a, high, wa);
    PriceBetween(low, b, high, wb);
    var x, y := wa * a, wb * b;
    SumAbove(low, wa, wb, x, y);
    SumAbove(-high, wa, wb, -x, -y);
    QuotientBetween(low, x + y, high, wa + wb);
  }

  lemma SumAbove(low: real, wa: real, wb: real, x: real, y: real)
    requires low * wa <= x && low * wb <= y
    ensures low * (wa + wb) <= x + y
  {
    assert low * (wa + wb) == low * wa + low * wb;
  }
}
