// Facts about products and quotients.
module Arith {
  lemma DivideMonotone(x: int, y: int, p: int)
    requires 0 <= x <= y && p > 0
    ensures 0 <= x / p <= y / p
  {
    if x / p > y / p {
      MultiplyMonotone(y / p + 1, x / p, p);
    }
  }

  lemma DivideShift(x: int, p: int)
    requires 0 <= x && p > 0
    ensures (x + p) / p == x / p + 1
  {
    var q, m := x / p, x % p;
    assert x + p == (q + 1) * p + m;
    DivideUnique(x + p, p, q + 1, m);
  }

  lemma DivideUnique(x: int, p: int, q: int, m: int)
    requires p > 0 && 0 <= m < p && x == q * p + m
    ensures x / p == q
  {
    var d := x / p - q;
    assert d * p == m - x % p;
    if d >= 1 {
      MultiplyMonotone(1, d, p);
    } else if d <= -1 {
      MultiplyMonotone(d, -1, p);
    }
  }

  lemma MultiplyMonotone(x: int, y: int, z: int)
    requires x <= y && z >= 0
    ensures x * z <= y * z
  {
    assert (y - x) * z >= 0;
  }

  lemma DistributeTwice(a: int, b: int, q: int, n: int)
    ensures a * (b * q + n) == q * (a * b) + a * n
  {
    assert a * (b * q + n) == a * (b * q) + a * n;
    assert a * (b * q) == q * (a * b);
  }

  lemma DivideTwice(x: int, a: int, b: int)
    requires x >= 0 && a > 0 && b > 0
    ensures a * b > 0 && (x / a) / b == x / (a * b)
  {
    var y := x / a;
    var q, m, n := y / b, x % a, y % b;
    DistributeTwice(a, b, q, n);
    MultiplyMonotone(1, b, a);
    MultiplyMonotone(0, n, a);
    MultiplyMonotone(n, b - 1, a);
    DivideUnique(x, a * b, q, a * n + m);
  }
}
