/** Powers of two, natural alignment and the buddy of a block, on page numbers. */
module PageMath {

  function Pow2(n: nat): (r: nat)
    ensures r > 0
  {
    if n == 0 then 1 else 2 * Pow2(n - 1)
  }

  ghost predicate Aligned(x: int, n: nat) {
    x % Pow2(n) == 0
  }

  /** Bit `n` of a page number, which is the bit of the block size in its address. */
  predicate Upper(x: int, n: nat) {
    x / Pow2(n) % 2 == 1
  }

  lemma {:induction false} MulMonotone(d: int, i: int, j: int)
    requires d > 0 && i < j
    ensures d * i + d <= d * j
    decreases j - i
  {
    assert d * j == d * (j - 1) + d;
    if i < j - 1 {
      MulMonotone(d, i, j - 1);
    }
  }

  lemma DivUnique(d: int, q: int, r: int, q': int, r': int)
    requires d * q + r == d * q' + r' && 0 <= r < d && 0 <= r' < d
    ensures q == q' && r == r'
  {
    if q < q' {
      MulMonotone(d, q, q');
    } else if q' < q {
      MulMonotone(d, q', q);
    }
  }

  lemma DivMod(x: int, d: int, q: int, r: int)
    requires d > 0 && x == d * q + r && 0 <= r < d
    ensures x / d == q && x % d == r
  {
    DivUnique(d, q, r, x / d, x % d);
  }

  lemma Multiple(d: int, q: int)
    requires d > 0
    ensures (d * q) % d == 0 && (d * q) / d == q
  {
    DivMod(d * q, d, q, 0);
  }

  /** A block of order `n + 1` starts where one of order `n` does that is a lower half. */
  lemma Halves(x: int, n: nat)
    ensures Aligned(x, n + 1) <==> Aligned(x, n) && !Upper(x, n)
  {
    var p := Pow2(n);
    var q, r := x / p, x % p;
    var h, b := q / 2, q % 2;
    assert x == p * q + r && q == 2 * h + b;
    assert x == 2 * p * h + (p * b + r);
    DivMod(x, 2 * p, h, p * b + r);
  }

  lemma Shift(x: int, n: nat, i: int)
    requires Aligned(x, n)
    ensures Aligned(x + Pow2(n) * i, n) && (x + Pow2(n) * i) / Pow2(n) == x / Pow2(n) + i
  {
    var p := Pow2(n);
    DivMod(x + p * i, p, x / p + i, 0);
  }

  /** The two halves of a block. */
  lemma SecondHalf(x: int, n: nat)
    requires Aligned(x, n + 1)
    ensures Aligned(x, n) && !Upper(x, n) && Aligned(x + Pow2(n), n) && Upper(x + Pow2(n), n)
    ensures !Aligned(x + Pow2(n), n + 1)
  {
    hide Pow2;
    Halves(x, n);
    Shift(x, n, 1);
    Halves(x + Pow2(n), n);
  }

  lemma FirstHalf(x: int, n: nat)
    requires Aligned(x, n) && Upper(x, n)
    ensures Aligned(x - Pow2(n), n + 1)
  {
    Shift(x, n, -1);
    Halves(x - Pow2(n), n);
  }

  lemma {:induction false} Coarser(x: int, n: nat, m: nat)
    requires Aligned(x, n) && m <= n
    ensures Aligned(x, m)
    decreases n
  {
    if m < n {
      Halves(x, n - 1);
      Coarser(x, n - 1, m);
    }
  }

  /** Aligned blocks do not straddle: one that starts inside a larger one ends inside it. */
  lemma Nested(x: int, m: nat, y: int, n: nat)
    requires m <= n && Aligned(x, m) && Aligned(y, n) && y <= x < y + Pow2(n)
    ensures x + Pow2(m) <= y + Pow2(n)
  {
    hide Pow2;
    Coarser(y, n, m);
    SecondHalf0(n, m);
    var p, q := Pow2(m), Pow2(n) / Pow2(m);
    assert p * q == Pow2(n);
    Shift(y, m, q);
    Multiples(p, x, y + p * q);
  }

  lemma Multiples(d: int, x: int, y: int)
    requires d > 0 && x % d == 0 && y % d == 0 && x < y
    ensures x + d <= y
  {
    var i, j := x / d, y / d;
    assert x == d * i && y == d * j;
    if j <= i {
      assert j < i ==> d * j + d <= d * i by {
        if j < i { MulMonotone(d, j, i); }
      }
    } else {
      MulMonotone(d, i, j);
    }
  }

  lemma {:induction false} SecondHalf0(n: nat, m: nat)
    requires m <= n
    ensures Pow2(n) % Pow2(m) == 0
    decreases n
  {
    if m < n {
      SecondHalf0(n - 1, m);
      var p := Pow2(m);
      var q := Pow2(n - 1) / p;
      assert Pow2(n - 1) == p * q;
      assert Pow2(n) == p * (2 * q);
      Multiple(p, 2 * q);
    } else {
      Multiple(Pow2(m), 1);
    }
  }

  lemma {:induction false} PowMonotone(m: nat, n: nat)
    requires m <= n
    ensures Pow2(m) <= Pow2(n) && (m < n ==> Pow2(m) < Pow2(n))
    decreases n
  {
    if m < n {
      PowMonotone(m, n - 1);
    }
  }

  /** The order of a page is settled by its number once it is not aligned any further. */
  lemma TzUnique(x: int, m: nat, n: nat)
    requires Aligned(x, m) && !Aligned(x, m + 1) && Aligned(x, n) && !Aligned(x, n + 1)
    ensures m == n
  {
    if m < n {
      Coarser(x, n, m + 1);
    } else if n < m {
      Coarser(x, m, n + 1);
    }
  }

  /** Both halves of a block agree on the higher bits. */
  lemma SameUpper(x: int, n: nat)
    requires Aligned(x, n + 1)
    ensures Upper(x + Pow2(n), n + 1) <==> Upper(x, n + 1)
  {
    var p := Pow2(n + 1);
    DivMod(x + Pow2(n), p, x / p, Pow2(n));
  }
}
