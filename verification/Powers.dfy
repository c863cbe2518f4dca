/** Powers of two and the arithmetic of shifting by them. */
module Powers {

  function Pow2(k: nat): (r: nat)
    ensures r >= 1
  {
    if k == 0 then 1 else 2 * Pow2(k - 1)
  }

  lemma {:induction false} Pow2Add(a: nat, b: nat)
    ensures Pow2(a + b) == Pow2(a) * Pow2(b)
  {
    if a == 0 {
    } else {
      Pow2Add(a - 1, b);
      assert Pow2(a + b) == 2 * Pow2(a - 1 + b);
      assert 2 * (Pow2(a - 1) * Pow2(b)) == (2 * Pow2(a - 1)) * Pow2(b);
    }
  }

  lemma {:induction false} Pow2Monotone(a: nat, b: nat)
    requires a <= b
    ensures Pow2(a) <= Pow2(b)
    ensures a < b ==> 2 * Pow2(a) <= Pow2(b)
  {
    if a < b {
      Pow2Monotone(a, b - 1);
    }
  }

  lemma Pow2Numerals()
    ensures Pow2(8) == 256
    ensures Pow2(16) == 0x1_0000
    ensures Pow2(31) == 0x8000_0000
    ensures Pow2(32) == 0x1_0000_0000
    ensures Pow2(64) == 0x1_0000_0000_0000_0000
  {
    assert Pow2(4) == 16;
    Pow2Add(4, 4);
    Pow2Add(8, 8);
    Pow2Add(16, 16);
    Pow2Add(32, 32);
    assert Pow2(32) == 2 * Pow2(31);
  }

  /** `(x * c) / c == x`, in the shape the shift lemmas need. */
  lemma MulDiv(x: nat, c: nat)
    requires c > 0
    ensures x * c / c == x
    ensures (x * c) % c == 0
  {
    DivModUnique(x * c, c, x, 0);
  }

  lemma {:induction false} MulGap(q: nat, p: nat, d: nat)
    requires q < p
    ensures q * d + d <= p * d
    decreases p
  {
    assert p * d == (p - 1) * d + d;
    if q < p - 1 {
      MulGap(q, p - 1, d);
    }
  }

  /** Quotient and remainder are the only pair that rebuilds the number. */
  lemma DivModUnique(n: nat, d: nat, q: nat, r: nat)
    requires d > 0 && r < d && n == q * d + r
    ensures n / d == q && n % d == r
  {
    var p := n / d;
    assert n == p * d + n % d && 0 <= n % d < d && p >= 0;
    if q < p {
      MulGap(q, p, d);
    } else if p < q {
      MulGap(p, q, d);
    }
  }

  lemma DivRebuild(n: nat, d: nat)
    requires d > 0
    ensures n == (n / d) * d + n % d
    ensures 0 <= n % d < d
    ensures n / d >= 0
  {
  }

  /** Scaling both sides: `(x * c) mod (m * c) == (x mod m) * c`. */
  lemma ModScale(x: nat, m: nat, c: nat)
    requires m > 0 && c > 0
    ensures m * c > 0
    ensures (x * c) % (m * c) == (x % m) * c
  {
    var q, r := x / m, x % m;
    DivRebuild(x, m);
    assert x * c == q * (m * c) + r * c by {
      assert x * c == (q * m + r) * c;
    }
    assert r * c < m * c;
    DivModUnique(x * c, m * c, q, r * c);
  }
}
