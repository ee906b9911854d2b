/** Which free block an allocation is cut from, in terms of the free pages alone. */
module PageFit {
  import opened PageMath
  import opened PagePool

  /** `y` is the start of an aligned run of order `m` of free pages that `x` lies in. */
  ghost predicate Around(u: set<int>, m: nat, y: int, x: int) {
    Aligned(y, m) && y <= x < y + Pow2(m) && Run(y, Pow2(m)) <= u
  }

  /** A free block: an aligned run of free pages that no larger one has in it. */
  ghost predicate Block(u: set<int>, k: nat, o: nat, x: int) {
    && o < k && Aligned(x, o) && Run(x, Pow2(o)) <= u
    && forall m: nat, y :: o < m < k ==> !Around(u, m, y, x)
  }

  /** `p` is a block of order `o`, the least order from `n` on that is free, and a lower half if
      any block of that order is. */
  ghost predicate FitOf(u: set<int>, k: nat, n: nat, o: nat, p: int) {
    && n <= o && Block(u, k, o, p)
    && (forall m: nat, x :: n <= m < o ==> !Block(u, k, m, x))
    && (Upper(p, o) ==> forall x :: Block(u, k, o, x) ==> Upper(x, o))
  }

  ghost predicate BestFit(u: set<int>, k: nat, n: nat, p: int) {
    exists o: nat :: FitOf(u, k, n, o, p)
  }

  /** A block of order `n`, a lower half, with room for one of order `m` right behind it. */
  ghost predicate PairFit(u: set<int>, k: nat, n: nat, m: nat, x: int) {
    Block(u, k, n, x) && !Upper(x, n) && Run(x + Pow2(n), Pow2(m)) <= u
  }

  // ---------------------------------------------------------------- the lists hold the blocks

  /** The page table knows a free block where there is one, and nowhere else. */
  lemma BlockIff(s: Pool, o: nat, x: int)
    requires Inv(s, {}, -1)
    ensures FreeOf(s.page, {}, o, x) <==> Block(Unused(s, {}), s.k, o, x)
  {
    hide Inv, Unused, Pow2, Aligned, Run;
    var u := Unused(s, {});
    InvParts(s);
    if FreeOf(s.page, {}, o, x) {
      BlockUnused(s, x);
      forall m: nat, y | o < m < s.k ensures !Around(u, m, y, x) {
        if Around(u, m, y, x) {
          InLarger(s, x, y, m);
        }
      }
    }
    if Block(u, s.k, o, x) {
      RunInBlock(s, x, o);
      var h := s.own[x];
      BlockUnused(s, h);
      assert In(s.page, h, x);
      assert s.page[h].ord <= o by {
        if s.page[h].ord > o {
          NoLarger(u, s.k, o, x, s.page[h].ord, h);
        }
      }
      SameBlock(s, x, o);
    }
  }

  /** A free run around a page is no larger than the page's block. */
  lemma InLarger(s: Pool, x: int, y: int, m: nat)
    requires Inv(s, {}, -1) && 0 <= x < |s.page| == |s.own| && s.own[x] == x && m < s.k
      && Around(Unused(s, {}), m, y, x)
    ensures m <= s.page[x].ord
  {
    hide Inv, Unused, Pow2, Aligned, Run;
    InvParts(s);
    RunInBlock(s, y, m);
    var g := s.own[y];
    BlockUnused(s, g);
    assert In(s.page, g, y);
    Nested(y, m, g, s.page[g].ord);
    BlockEnds(s.k, s.page, g);
    assert In(s.page, g, x) && Head(s.page, g);
  }

  /** The first block on the first list that is not empty fits best. */
  lemma FirstBest(s: Pool, n: nat, i: nat)
    requires Inv(s, {}, -1) && n <= i < s.k == |s.free| && s.free[i] != []
    requires forall o :: n <= o < i ==> s.free[o] == []
    ensures BestFit(Unused(s, {}), s.k, n, s.free[i][0])
  {
    hide Unused, Pow2, Aligned, Run, Upper, Block, Orders, Tiles, Canonical, FreeOf;
    var u, p := Unused(s, {}), s.free[i][0];
    assert ListOf(s.page, {}, i, s.free[i]) && p in s.free[i];
    BlockIff(s, i, p);
    forall m: nat, x | n <= m < i ensures !Block(u, s.k, m, x) {
      BlockIff(s, m, x);
      assert ListOf(s.page, {}, m, s.free[m]);
    }
    if Upper(p, i) {
      forall x | Block(u, s.k, i, x) ensures Upper(x, i) {
        BlockIff(s, i, x);
        assert x in s.free[i];
      }
    }
    assert FitOf(u, s.k, n, i, p);
  }

  // ---------------------------------------------------------------- what is left

  lemma NoLarger(u: set<int>, k: nat, o: nat, x: int, m: nat, y: int)
    requires Block(u, k, o, x) && o < m < k
    ensures !Around(u, m, y, x)
  {
  }

  /** Two free blocks have no page in common. */
  lemma BlocksApart(u: set<int>, k: nat, o: nat, x: int, m: nat, y: int)
    requires Block(u, k, o, x) && Block(u, k, m, y) && o <= m && y <= x < y + Pow2(m)
    ensures o == m && x == y
  {
    hide Pow2, Aligned, Run;
    if o < m {
      NoLarger(u, k, o, x, m, y);
    } else if x != y {
      AlignedMultiples(m, y, x);
    }
  }

  /** Taking pages elsewhere leaves a block as it is. */
  lemma StaysBlock(u: set<int>, k: nat, o: nat, x: int, r: set<int>)
    requires Block(u, k, o, x) && r !! Run(x, Pow2(o))
    ensures Block(u - r, k, o, x)
  {
    hide Pow2, Aligned, Run;
    forall m: nat, y | o < m < k ensures !Around(u - r, m, y, x) {
      NoLarger(u, k, o, x, m, y);
    }
  }

  /** All free blocks of `u` but those in `exc` are free blocks of `u'`. */
  ghost predicate BlocksKept(u: set<int>, u': set<int>, k: nat, exc: set<int>) {
    forall o: nat, x :: Block(u, k, o, x) && x !in exc ==> Block(u', k, o, x)
  }

  /** An allocation leaves every other free block as it is, above all the larger ones. */
  lemma FitKeeps(u: set<int>, k: nat, n: nat, p: int, len: nat)
    requires BestFit(u, k, n, p) && len <= Pow2(n)
    ensures BlocksKept(u, u - Run(p, len), k, {p})
  {
    hide Pow2, Aligned, Run, Block;
    var i: nat :| FitOf(u, k, n, i, p);
    PowMonotone(n, i);
    RunPart(p, len, Pow2(i));
    forall o: nat, x | Block(u, k, o, x) && x !in {p} ensures Block(u - Run(p, len), k, o, x) {
      RunsSeparate(u, k, i, p, o, x);
      StaysBlock(u, k, o, x, Run(p, len));
    }
  }

  /** So does an allocation of two blocks. */
  lemma PairKeeps(s: Pool, n: nat, m: nat, p: int)
    requires Inv(s, {}, -1) && m < n < s.k && PairFit(Unused(s, {}), s.k, n, m, p)
    ensures var u := Unused(s, {});
            BlocksKept(u, u - Run(p, Pow2(n) + Pow2(m)), s.k, {p, p + Pow2(n)})
  {
    hide Inv, Unused, Pow2, Aligned, Run, Upper, Block;
    var u, q := Unused(s, {}), p + Pow2(n);
    PairIff(s, n, m, p);
    BlockIff(s, s.page[q].ord, q);
    RunWithin(q, m, s.page[q].ord);
    RunSplit(p, Pow2(n), Pow2(m));
    forall o: nat, x | Block(u, s.k, o, x) && x !in {p, q} ensures Block(u - Run(p, Pow2(n) + Pow2(m)), s.k, o, x) {
      RunsSeparate(u, s.k, n, p, o, x);
      RunsSeparate(u, s.k, s.page[q].ord, q, o, x);
      StaysBlock(u, s.k, o, x, Run(p, Pow2(n) + Pow2(m)));
    }
  }

  lemma RunPart(p: int, m: nat, n: nat)
    requires m <= n
    ensures Run(p, m) <= Run(p, n)
  {
    hide Run;
    RunIs(p, m);
    RunIs(p, n);
    forall j | j in Run(p, m) ensures j in Run(p, n) {}
  }

  lemma RunWithin(p: int, n: nat, i: nat)
    requires n <= i
    ensures Run(p, Pow2(n)) <= Run(p, Pow2(i))
  {
    PowMonotone(n, i);
    RunPart(p, Pow2(n), Pow2(i));
  }

  lemma RunsSeparate(u: set<int>, k: nat, i: nat, p: int, o: nat, x: int)
    requires Block(u, k, i, p) && Block(u, k, o, x) && x != p
    ensures Run(p, Pow2(i)) !! Run(x, Pow2(o))
  {
    hide Pow2, Aligned;
    RunIs(p, Pow2(i));
    RunIs(x, Pow2(o));
    hide Run;
    forall j ensures !(j in Run(p, Pow2(i)) && j in Run(x, Pow2(o))) {
      if !(j in Run(p, Pow2(i)) && j in Run(x, Pow2(o))) {
      } else if i <= o {
        Overlap(u, k, i, p, o, x, j);
      } else {
        Overlap(u, k, o, x, i, p, j);
      }
    }
  }

  lemma Overlap(u: set<int>, k: nat, i: nat, p: int, o: nat, x: int, j: int)
    requires Block(u, k, i, p) && Block(u, k, o, x) && i <= o && p <= j < p + Pow2(i) && x <= j < x + Pow2(o)
    ensures p == x
  {
    hide Pow2, Aligned, Run, Block;
    BlockAligned(u, k, i, p);
    BlockAligned(u, k, o, x);
    if p < x {
      Coarser(x, o, i);
      AlignedMultiples(i, p, x);
    }
    BlocksApart(u, k, i, p, o, x);
  }

  lemma BlockAligned(u: set<int>, k: nat, o: nat, x: int)
    requires Block(u, k, o, x)
    ensures Aligned(x, o) && Run(x, Pow2(o)) <= u
  {
  }

  /** With a free block of the order asked for, no block is split. */
  lemma NoSplit(u: set<int>, k: nat, n: nat, p: int, o: nat, x: int)
    requires BestFit(u, k, n, p) && (exists y :: Block(u, k, n, y)) && Block(u - Run(p, Pow2(n)), k, o, x)
    ensures Block(u, k, n, p) && Block(u, k, o, x) && x != p
  {
    hide Pow2, Aligned, Run;
    var i: nat :| FitOf(u, k, n, i, p);
    assert i == n;
    var u' := u - Run(p, Pow2(n));
    RunIs(x, Pow2(o));
    RunIs(p, Pow2(n));
    assert x in Run(x, Pow2(o));
    forall m: nat, y | o < m < k ensures !Around(u, m, y, x) {
      if Around(u, m, y, x) {
        Untouched(u, k, n, p, m, y, x);
      }
    }
  }

  /** A free run around a page that stays free has no page of the block taken. */
  lemma Untouched(u: set<int>, k: nat, n: nat, p: int, m: nat, y: int, x: int)
    requires Block(u, k, n, p) && m < k && Around(u, m, y, x) && x !in Run(p, Pow2(n))
    ensures Around(u - Run(p, Pow2(n)), m, y, x)
  {
    hide Pow2, Aligned, Run;
    RunIs(p, Pow2(n));
    RunIs(y, Pow2(m));
    forall j | j in Run(y, Pow2(m)) ensures j !in Run(p, Pow2(n)) {
      if j in Run(p, Pow2(n)) {
        if n < m {
          NoLarger(u, k, n, p, m, y);
          TakenInside(p, n, y, m, j);
        } else {
          TakenInside(y, m, p, n, j);
        }
      }
    }
  }

  /** Of two aligned runs with a page in common the smaller one lies in the other. */
  lemma TakenInside(p: int, n: nat, y: int, m: nat, j: int)
    requires n <= m && Aligned(p, n) && Aligned(y, m) && p <= j < p + Pow2(n) && y <= j < y + Pow2(m)
    ensures y <= p && p + Pow2(n) <= y + Pow2(m)
  {
    hide Pow2, Aligned;
    if p < y {
      Coarser(y, m, n);
      AlignedMultiples(n, p, y);
    }
    Nested(p, n, y, m);
  }

  // ---------------------------------------------------------------- pairs

  /** The scan for a pair finds what there is. */
  lemma PairIff(s: Pool, n: nat, m: nat, x: int)
    requires Inv(s, {}, -1) && m < n < s.k
    ensures PairFit(Unused(s, {}), s.k, n, m, x) <==>
      && FreeOf(s.page, {}, n, x) && !Upper(x, n) && 0 <= x + Pow2(n) < |s.page|
      && s.page[x + Pow2(n)].ty == Free && s.page[x + Pow2(n)].ord >= m
  {
    hide Inv, Unused, Pow2, Aligned, Run, Upper, Block;
    BlockIff(s, n, x);
    var q := x + Pow2(n);
    if PairFit(Unused(s, {}), s.k, n, m, x) {
      PairHead(s, n, m, x);
    }
    if FreeOf(s.page, {}, n, x) && !Upper(x, n) && 0 <= q < |s.page| && s.page[q].ty == Free && s.page[q].ord >= m {
      BlockUnused(s, q);
      RunWithin(q, m, s.page[q].ord);
    }
  }

  /** A block that reaches over both halves has the lower one in it. */
  lemma OwnInside(s: Pool, x: int, h: int, n: nat, q: int)
    requires Orders(s.k, s.page) && Tiles(s.page, s.own) && 0 <= x < |s.page| && Aligned(x, n + 1)
    requires q == x + Pow2(n) && Head(s.page, h) && In(s.page, h, q) && s.page[h].ord > n
    ensures s.own[x] == h
  {
    hide Pow2, Aligned;
    PowStep(n);
    TakenInside(x, n + 1, h, s.page[h].ord, q);
    assert In(s.page, h, x);
  }

  lemma PairHead(s: Pool, n: nat, m: nat, x: int)
    requires Inv(s, {}, -1) && m < n < s.k && FreeOf(s.page, {}, n, x) && !Upper(x, n)
      && Run(x + Pow2(n), Pow2(m)) <= Unused(s, {})
    ensures 0 <= x + Pow2(n) < |s.page| && s.page[x + Pow2(n)].ty == Free && s.page[x + Pow2(n)].ord >= m
  {
    hide Inv, Unused, Pow2, Aligned, Run, Upper;
    var q := x + Pow2(n);
    InvParts(s);
    BlockUnused(s, x);
    Halves(x, n);
    SecondHalf(x, n);
    Coarser(q, n, m);
    RunInBlock(s, q, m);
    var h := s.own[q];
    BlockUnused(s, h);
    assert In(s.page, h, q);
    PowStep(n);
    if s.page[h].ord > n {
      OwnInside(s, x, h, n, q);
    }
    SameBlock(s, q, n);
  }
}
