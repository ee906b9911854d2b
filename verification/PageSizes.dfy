/** The sizes that page allocations come in. */
module PageSizes {
  import opened PageMath

  /** A block of order `i`, followed by one of order `j` unless `j` is negative. */
  function SizeOf(i: nat, j: int): nat {
    Pow2(i) + if j < 0 then 0 else Pow2(j)
  }

  /** The least size for `n` pages. */
  ghost predicate Fits(k: nat, n: int, i: nat, j: int) {
    && i < k && -1 <= j < i && n <= SizeOf(i, j)
    && forall a: nat, b: int {:trigger SizeOf(a, b)} ::
      a < k && b < a && n <= SizeOf(a, b) ==> SizeOf(i, j) <= SizeOf(a, b)
  }

  ghost predicate TooBig(k: nat, n: int) {
    forall a: nat, b: int {:trigger SizeOf(a, b)} :: a < k && b < a ==> SizeOf(a, b) < n
  }

  /** `get_alloc_pages_size`, with sizes counted in bytes as there. */
  method GetAllocPagesSize(k: nat, n: int) returns (i: int, second: int)
    ensures i >= -1 && (i == -1 <==> TooBig(k, n))
    ensures i != -1 ==> Fits(k, n, i, second)
    ensures i != -1 && n >= 1 ==> 3 * SizeOf(i, second) <= 4 * n
  {
    var sz := n * 4096;
    i, second := 0, -1;
    while i < k
      invariant 0 <= i <= k && second == -1 && forall a: nat :: a < i ==> Short(a, n)
    {
      var allocsize := 4096 * Pow2(i);
      if allocsize >= sz {
        FirstFits(k, n, i, -1);
        return;
      }
      if i > 0 && allocsize + 4096 * Pow2(i - 1) >= sz {
        var secondsz := sz - allocsize;
        var j := 0;
        while j < i - 1
          invariant 0 <= j <= i - 1 && (j > 0 ==> 4096 * Pow2(j - 1) < secondsz)
        {
          if 4096 * Pow2(j) >= secondsz {
            break;
          }
          j := j + 1;
        }
        second := j;
        FirstFits(k, n, i, j);
        return;
      }
      i := i + 1;
    }
    NoneFits(k, n);
    i := -1;
  }

  /** Too short for `n` pages, with every second block. */
  ghost predicate Short(i: nat, n: int) {
    Pow2(i) < n && (i > 0 ==> Pow2(i) + Pow2(i - 1) < n)
  }

  lemma ShortIs(i: nat, n: int, b: int)
    requires Short(i, n) && b < i
    ensures SizeOf(i, b) < n
  {
    if b >= 0 {
      PowMonotone(b, i - 1);
    }
  }

  lemma NoneFits(k: nat, n: int)
    requires forall a: nat :: a < k ==> Short(a, n)
    ensures TooBig(k, n)
  {
    forall a: nat, b: int {:trigger SizeOf(a, b)} | a < k && b < a ensures SizeOf(a, b) < n {
      ShortIs(a, n, b);
    }
  }

  lemma FirstFits(k: nat, n: int, i: nat, j: int)
    requires i < k && -1 <= j < i && (forall a: nat :: a < i ==> Short(a, n)) && n <= SizeOf(i, j)
    requires j >= 0 ==> Pow2(i) < n && (j > 0 ==> Pow2(i) + Pow2(j - 1) < n)
    ensures Fits(k, n, i, j)
    ensures n >= 1 ==> 3 * SizeOf(i, j) <= 4 * n
  {
    forall a: nat, b: int {:trigger SizeOf(a, b)} | a < k && b < a && n <= SizeOf(a, b)
      ensures SizeOf(i, j) <= SizeOf(a, b)
    {
      LeastSize(n, i, j, a, b);
    }
    if n >= 1 {
      Waste(n, i, j);
    }
  }

  lemma LeastSize(n: int, i: nat, j: int, a: nat, b: int)
    requires -1 <= j < i && (forall c: nat :: c < i ==> Short(c, n)) && b < a && n <= SizeOf(a, b)
    requires j >= 0 ==> Pow2(i) < n && (j > 0 ==> Pow2(i) + Pow2(j - 1) < n)
    ensures SizeOf(i, j) <= SizeOf(a, b)
  {
    if a < i {
      ShortIs(a, n, b);
    } else if a > i {
      PowMonotone(i + 1, a);
      if j >= 0 {
        PowMonotone(j, i);
      }
    } else if j > 0 {
      if b < j {
        if b >= 0 {
          PowMonotone(b, j - 1);
        }
      } else {
        PowMonotone(j, b);
      }
    } else if j == 0 && b >= 0 {
      PowMonotone(0, b);
    }
  }

  lemma Smaller(a: nat, b: int, i: nat, j: int)
    requires -1 <= b < a && -1 <= j < i && (a < i || (a == i && b < j))
    ensures SizeOf(a, b) < SizeOf(i, j)
  {
    if a < i {
      PowMonotone(a + 1, i);
      if b >= 0 {
        PowMonotone(b + 1, a);
      }
    } else if b >= 0 {
      PowMonotone(b + 1, j);
    }
  }

  /** No size comes in two shapes, so the least one has one shape. */
  lemma OneShape(k: nat, n: int, a: nat, b: int, i: nat, j: int)
    requires Fits(k, n, a, b) && Fits(k, n, i, j)
    ensures a == i && b == j
  {
    assert SizeOf(a, b) == SizeOf(i, j);
    if a < i || (a == i && b < j) {
      Smaller(a, b, i, j);
    } else if i < a || (a == i && j < b) {
      Smaller(i, j, a, b);
    }
  }

  /** At most a quarter of an allocation is waste. */
  lemma Waste(n: int, i: nat, j: int)
    requires n >= 1 && -1 <= j < i && (forall c: nat :: c < i ==> Short(c, n))
    requires j >= 0 ==> Pow2(i) < n && (j > 0 ==> Pow2(i) + Pow2(j - 1) < n)
    ensures 3 * SizeOf(i, j) <= 4 * n
  {
    if j > 0 {
      PowMonotone(j, i);
    } else if j < 0 && i > 0 {
      assert Short(i - 1, n);
    }
  }
}
