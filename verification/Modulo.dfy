/**
 Quotients and remainders by a positive divisor.
 */
module Modulo {
  // A number between 0 and b that differs from `a` by a multiple of b is the remainder.
  lemma RemainderIsUnique(a: int, b: int, q: int, r: int)
    requires b > 0 && 0 <= r < b && a == b * q + r
    ensures a / b == q && a % b == r
  {
    var d := a / b - q;
    assert b * d == r - a % b by {
      assert a == b * (a / b) + a % b;
      assert b * (a / b - q) == b * (a / b) - b * q;
    }
    assert d >= 1 ==> b * d >= b;
    assert d <= -1 ==> b * d <= -b;
  }

  lemma Shifted(a: int, b: int, k: int)
    requires b > 0
    ensures (a + k * b) % b == a % b && (a + k * b) / b == a / b + k
  {
    assert a == b * (a / b) + a % b;
    assert b * (a / b + k) == b * (a / b) + k * b;
    RemainderIsUnique(a + k * b, b, a / b + k, a % b);
  }

  // Remainders may be taken before a difference, or before adding one.
  lemma OfDifference(a: int, b: int, w: int)
    requires w > 0
    ensures (b % w - a % w) % w == (b - a) % w
  {
    assert b == w * (b / w) + b % w && a == w * (a / w) + a % w;
    var q := b / w - a / w;
    assert q * w == w * (b / w) - w * (a / w);
    Shifted(b % w - a % w, w, q);
  }

  lemma OfSuccessor(a: int, m: int)
    requires m > 0
    ensures (a % m + 1) % m == (a + 1) % m
  {
    assert a == m * (a / m) + a % m;
    Shifted(a % m + 1, m, a / m);
  }

  lemma QuotientGrows(a: int, b: int, w: int)
    requires w > 0 && a <= b
    ensures a / w <= b / w
  {
    var p, q := a / w, b / w;
    assert a == w * p + a % w && b == w * q + b % w;
    assert w * (p - q) < w;
    assert p - q >= 1 ==> w * (p - q) >= w;
  }

  // Counting on within a turn of `w`, or into the next.
  lemma NextCount(a: int, w: int)
    requires w > 0
    ensures a % w < w - 1 ==> (a + 1) / w == a / w && (a + 1) % w == a % w + 1
    ensures a % w == w - 1 ==> (a + 1) / w == a / w + 1 && (a + 1) % w == 0
  {
    assert a == w * (a / w) + a % w;
    if a % w < w - 1 {
      RemainderIsUnique(a + 1, w, a / w, a % w + 1);
    } else {
      assert w * (a / w + 1) == w * (a / w) + w;
      RemainderIsUnique(a + 1, w, a / w + 1, 0);
    }
  }

  // Less than a whole turn leads at most to the next one.
  lemma NextTurn(a: int, b: int, w: int)
    requires w > 0 && a <= b < a + w
    ensures b / w == a / w || b / w == a / w + 1
  {
    QuotientGrows(a, b, w);
    QuotientGrows(b, a + w, w);
    Shifted(a, w, 1);
  }
}
