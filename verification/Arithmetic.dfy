// Facts about quotients and sizes that several modules need.
module Arithmetic {
  function Min(a: nat, b: nat): nat { if a < b then a else b }

  lemma MultipleBounds(k: int, d: nat)
    ensures k >= 1 ==> k * d >= d
    ensures k <= -1 ==> k * d + d <= 0
  {
    if k >= 1 {
      assert k * d == (k - 1) * d + d;
    } else if k <= -1 {
      assert k * d == (k + 1) * d - d;
    }
  }

  lemma QuotientIs(n: nat, r: nat, q: nat, s: nat)
    requires n == q * r + s && s < r
    ensures n / r == q && n % r == s
  {
    var d := n / r - q;
    MultipleBounds(d, r);
    assert n == n / r * r + n % r;
    assert d * r == n / r * r - q * r;
  }

  lemma DivMonotone(a: nat, b: nat, d: nat)
    requires a <= b && d > 0
    ensures a / d <= b / d
  {
    var k := a / d - b / d;
    MultipleBounds(k, d);
    assert k * d == a / d * d - b / d * d;
    assert a / d * d <= a && b < b / d * d + d;
  }

  lemma DivBelow(n: nat, d: nat, q: nat)
    requires d > 0
    ensures n / d < q <==> n < q * d
  {
    assert n == n / d * d + n % d;
    if n / d < q { assert (n / d + 1) * d <= q * d; } else { assert n / d * d >= q * d; }
  }

  lemma {:induction false} SubsetIsSmaller(a: set<nat>, b: set<nat>)
    requires a <= b
    ensures |a| <= |b|
  {
    if x :| x in a { SubsetIsSmaller(a - {x}, b - {x}); }
  }
}

// The GPU model's limits on one call and on a conversation.
module GpuLimits {
  const MaxChunk: nat := 64
  const Context: nat := 65536
}
