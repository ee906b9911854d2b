/** The page table of the buddy allocator as a value, with what every operation keeps:
    the pages are tiled by naturally aligned blocks, the order lists hold exactly the free
    blocks, lower halves first, and no two free buddies are left apart. */
module PagePool {
  import opened List
  import opened PageMath

  datatype PageType = Free | NotHead | Allocated | Cont | Small | Reserved

  datatype Page = Page(ty: PageType, ord: nat)

  /** `own` gives for each page the first page of its block. */
  datatype Pool = Pool(k: nat, page: seq<Page>, own: seq<int>, free: seq<seq<int>>)

  ghost predicate In(page: seq<Page>, x: int, j: int) {
    0 <= x < |page| && 0 <= j < |page| && x <= j < x + Pow2(page[x].ord)
  }

  ghost predicate Head(page: seq<Page>, x: int) {
    0 <= x < |page| && page[x].ty != NotHead
  }

  /** Blocks are naturally aligned, and a page inside a block stores the number of trailing
      zeros of its page number. */
  ghost predicate Orders(k: nat, page: seq<Page>) {
    && k > 0 && Aligned(|page|, k)
    && (forall x :: 0 <= x < |page| ==> page[x].ord < k && Aligned(x, page[x].ord))
    && (forall x :: 0 <= x < |page| && page[x].ty == NotHead ==> !Aligned(x, page[x].ord + 1))
  }

  /** The blocks partition the pages. */
  ghost predicate Tiles(page: seq<Page>, own: seq<int>) {
    && |own| == |page|
    && (forall j :: 0 <= j < |page| ==> Head(page, own[j]) && In(page, own[j], j))
    && (forall x, j {:trigger In(page, x, j)} :: Head(page, x) && In(page, x, j) ==> own[j] == x)
  }

  /** A free block that is not in the hands of the allocator. */
  ghost predicate FreeHead(page: seq<Page>, hold: set<int>, x: int) {
    0 <= x < |page| && page[x].ty == Free && x !in hold
  }

  ghost predicate FreeOf(page: seq<Page>, hold: set<int>, o: nat, x: int) {
    FreeHead(page, hold, x) && page[x].ord == o
  }

  /** No block twice, and no lower half behind an upper half. */
  ghost predicate Ranked(l: seq<int>, o: nat) {
    forall i, j :: 0 <= i < j < |l| ==> l[i] != l[j] && (Upper(l[i], o) ==> Upper(l[j], o))
  }

  ghost predicate ListOf(page: seq<Page>, hold: set<int>, o: nat, l: seq<int>) {
    Ranked(l, o) && forall x :: x in l <==> FreeOf(page, hold, o, x)
  }

  ghost predicate Lists(k: nat, page: seq<Page>, hold: set<int>, free: seq<seq<int>>) {
    |free| == k && forall o :: 0 <= o < k ==> ListOf(page, hold, o, free[o])
  }

  /** `x` and its buddy are both free, of one order. */
  ghost predicate Apart(page: seq<Page>, hold: set<int>, o: nat, x: int) {
    FreeOf(page, hold, o, x) && !Upper(x, o) && FreeOf(page, hold, o, x + Pow2(o))
  }

  /** Below the top order free buddies are merged, but for the block being merged now. */
  ghost predicate Canonical(k: nat, page: seq<Page>, hold: set<int>, exc: int) {
    forall o: nat, x {:trigger Apart(page, hold, o, x)} ::
      o + 1 < k && Apart(page, hold, o, x) ==> x == exc || x + Pow2(o) == exc
  }

  ghost predicate Inv(s: Pool, hold: set<int>, exc: int) {
    && Orders(s.k, s.page) && Tiles(s.page, s.own) && Lists(s.k, s.page, hold, s.free)
      && Canonical(s.k, s.page, hold, exc)
    && (forall x :: x in hold ==> 0 <= x < |s.page| && s.page[x].ty == Free)
  }

  ghost function FreePages(page: seq<Page>, own: seq<int>, hold: set<int>): set<int> {
    set j | 0 <= j < |own| && FreeHead(page, hold, own[j])
  }

  ghost function Unused(s: Pool, hold: set<int>): set<int> {
    FreePages(s.page, s.own, hold)
  }

  /** The `n` pages from `x` on. */
  ghost function Run(x: int, n: nat): set<int> {
    if n == 0 then {} else Run(x, n - 1) + {x + n - 1}
  }

  lemma {:induction false} RunIs(x: int, n: nat)
    ensures forall j :: j in Run(x, n) <==> x <= j < x + n
    ensures |Run(x, n)| == n
  {
    if n > 0 {
      RunIs(x, n - 1);
    }
  }

  // ---------------------------------------------------------------- lists

  lemma {:induction false} DelRanked(l: seq<int>, x: int, o: nat)
    requires x in l && Ranked(l, o)
    ensures Ranked(Del(l, x), o) && forall y :: y in Del(l, x) <==> y in l && y != x
  {
    hide Upper;
    DelIs(l, x);
    if l[0] != x {
      DelRanked(l[1..], x, o);
      var d := Del(l[1..], x);
      forall i | 0 <= i < |d| ensures d[i] != l[0] && (Upper(l[0], o) ==> Upper(d[i], o)) {
        assert d[i] in d;
      }
    }
  }

  /** `LIST1_ADD` for an upper half, `LIST1_PUSH` for a lower one. */
  function Put(l: seq<int>, x: int, o: nat): seq<int> {
    if Upper(x, o) then l + [x] else [x] + l
  }

  lemma PutIs(l: seq<int>, x: int, o: nat)
    requires Ranked(l, o) && x !in l
    ensures Ranked(Put(l, x, o), o) && forall y :: y in Put(l, x, o) <==> y in l || y == x
  {
    hide Upper;
  }

  /** A list changes with its free blocks and with nothing else. */
  lemma ListSame(page: seq<Page>, hold: set<int>, page': seq<Page>, hold': set<int>, o: nat, l: seq<int>)
    requires ListOf(page, hold, o, l)
    requires forall x :: FreeOf(page', hold', o, x) <==> FreeOf(page, hold, o, x)
    ensures ListOf(page', hold', o, l)
  {
    hide Ranked, FreeOf;
  }

  lemma ListPut(page: seq<Page>, hold: set<int>, page': seq<Page>, hold': set<int>, o: nat, l: seq<int>, p: int)
    requires ListOf(page, hold, o, l) && !FreeOf(page, hold, o, p)
    requires forall x :: FreeOf(page', hold', o, x) <==> FreeOf(page, hold, o, x) || x == p
    ensures ListOf(page', hold', o, Put(l, p, o))
  {
    hide Ranked, FreeOf, Put;
    PutIs(l, p, o);
  }

  lemma ListDel(page: seq<Page>, hold: set<int>, page': seq<Page>, hold': set<int>, o: nat, l: seq<int>, p: int)
    requires ListOf(page, hold, o, l) && FreeOf(page, hold, o, p)
    requires forall x :: FreeOf(page', hold', o, x) <==> FreeOf(page, hold, o, x) && x != p
    ensures p in l && ListOf(page', hold', o, Del(l, p))
  {
    hide Ranked, FreeOf, Del;
    DelRanked(l, p, o);
  }

  // ---------------------------------------------------------------- taking a block apart

  ghost function Reown(own: seq<int>, x: int, n: int, h: int): seq<int> {
    seq(|own|, j requires 0 <= j < |own| => if x <= j < x + n then h else own[j])
  }

  lemma AlignedMultiples(n: nat, x: int, y: int)
    requires Aligned(x, n) && Aligned(y, n) && x < y
    ensures x + Pow2(n) <= y
  {
    Multiples(Pow2(n), x, y);
  }

  lemma BlockEnds(k: nat, page: seq<Page>, p: int)
    requires Orders(k, page) && 0 <= p < |page|
    ensures p + Pow2(page[p].ord) <= |page|
  {
    hide Pow2, Aligned;
    var n := page[p].ord;
    Coarser(|page|, k, n);
    AlignedMultiples(n, p, |page|);
  }

  /** The second half of the block at `p` becomes a free block of its own; its order is not
      written. */
  ghost function SplitPage(page: seq<Page>, p: int, q: int): seq<Page>
    requires 0 <= p < |page| && 0 <= q < |page| && page[p].ord > 0
  {
    page[p := page[p].(ord := page[p].ord - 1)][q := page[q].(ty := Free)]
  }

  /** What the second half of a block looks like before the split. */
  lemma HalfReady(k: nat, page: seq<Page>, own: seq<int>, p: int)
    requires Orders(k, page) && Tiles(page, own) && Head(page, p) && page[p].ord > 0
    ensures var n := page[p].ord - 1;
            var q := p + Pow2(n);
            && q + Pow2(n) <= |page| && page[q] == Page(NotHead, n) && Upper(q, n) && !Upper(p, n)
            && Aligned(p, n) && Aligned(q, n) && Pow2(n + 1) == 2 * Pow2(n)
  {
    hide Aligned, Upper;
    BlockEnds(k, page, p);
    var n := page[p].ord - 1;
    var q := p + Pow2(n);
    SecondHalf(p, n);
    assert In(page, p, q) && In(page, q, q);
    TzUnique(q, n, page[q].ord);
  }

  lemma SplitTiles(page: seq<Page>, own: seq<int>, p: int, n: nat)
    requires Tiles(page, own) && Head(page, p) && page[p].ord == n + 1 && Pow2(n + 1) == 2 * Pow2(n)
    requires p + Pow2(n) + Pow2(n) <= |page| && page[p + Pow2(n)] == Page(NotHead, n)
    ensures Tiles(SplitPage(page, p, p + Pow2(n)), Reown(own, p + Pow2(n), Pow2(n), p + Pow2(n)))
  {
    hide Pow2;
    var q := p + Pow2(n);
    var page', own' := SplitPage(page, p, q), Reown(own, q, Pow2(n), q);
    forall j | 0 <= j < |page'| ensures Head(page', own'[j]) && In(page', own'[j], j) {
      assert Head(page, own[j]) && In(page, own[j], j);
    }
    forall x, j | Head(page', x) && In(page', x, j) ensures own'[j] == x {
      assert In(page, p, j) ==> own[j] == p;
      if x != q {
        assert In(page, x, j) && own[j] == x;
      }
    }
  }

  lemma SplitLists(page: seq<Page>, hold: set<int>, p: int, q: int, k: nat, free: seq<seq<int>>)
    requires Lists(k, page, hold, free) && p in hold && 0 <= p < |page| && 0 < page[p].ord < k
    requires 0 <= q < |page| && page[q] == Page(NotHead, page[p].ord - 1) && q !in hold && Upper(q, page[p].ord - 1)
    ensures var n := page[p].ord - 1;
            Lists(k, SplitPage(page, p, q), hold, free[n := free[n] + [q]])
  {
    hide ListOf, Upper;
    var n, page' := page[p].ord - 1, SplitPage(page, p, q);
    forall o: nat, x ensures FreeOf(page', hold, o, x) <==> FreeOf(page, hold, o, x) || (o == n && x == q) {}
    ListPut(page, hold, page', hold, n, free[n], q);
    forall o | 0 <= o < k && o != n ensures ListOf(page', hold, o, free[o]) {
      ListSame(page, hold, page', hold, o, free[o]);
    }
  }

  lemma SplitCanonical(page: seq<Page>, hold: set<int>, p: int, q: int, k: nat)
    requires Canonical(k, page, hold, -1) && p in hold && 0 <= p < |page| && 0 < page[p].ord < k
    requires page[p].ord - 1 >= 0 && q == p + Pow2(page[p].ord - 1) < |page|
    requires page[q] == Page(NotHead, page[p].ord - 1) && Upper(q, page[p].ord - 1)
    ensures Canonical(k, SplitPage(page, p, q), hold, -1)
  {
    hide Upper, Pow2;
    var n, page' := page[p].ord - 1, SplitPage(page, p, q);
    forall o: nat, x | o + 1 < k && Apart(page', hold, o, x) ensures Apart(page, hold, o, x) {
      assert x != q && x + Pow2(o) != q;
    }
  }

  lemma SplitPages(page: seq<Page>, own: seq<int>, hold: set<int>, p: int, n: nat)
    requires Tiles(page, own) && p in hold && Head(page, p) && page[p].ord == n + 1
    requires p + Pow2(n) + Pow2(n) <= |page| && page[p + Pow2(n)] == Page(NotHead, n) && p + Pow2(n) !in hold
    ensures var q := p + Pow2(n);
            FreePages(SplitPage(page, p, q), Reown(own, q, Pow2(n), q), hold)
              == FreePages(page, own, hold) + Run(q, Pow2(n))
  {
    hide Pow2;
    var q := p + Pow2(n);
    var page', own' := SplitPage(page, p, q), Reown(own, q, Pow2(n), q);
    RunIs(q, Pow2(n));
    assert FreeHead(page', hold, q);
    forall j | 0 <= j < |own| && !(q <= j < q + Pow2(n))
      ensures own'[j] == own[j] && (FreeHead(page', hold, own[j]) <==> FreeHead(page, hold, own[j]))
    {
      assert Head(page, own[j]);
    }
    forall j | q <= j < q + Pow2(n) ensures own'[j] == q {}
  }

  ghost function Split(s: Pool, p: int): Pool
    requires 0 <= p < |s.page| && 0 < s.page[p].ord <= |s.free|
    requires p + Pow2(s.page[p].ord - 1) < |s.page|
  {
    var n := s.page[p].ord - 1;
    var q := p + Pow2(n);
    Pool(s.k, SplitPage(s.page, p, q), Reown(s.own, q, Pow2(n), q), s.free[n := s.free[n] + [q]])
  }

  lemma SplitKeeps(s: Pool, hold: set<int>, p: int)
    requires Inv(s, hold, -1) && p in hold && s.page[p].ord > 0
    ensures var n := s.page[p].ord - 1;
            var q := p + Pow2(n);
            && n + 1 < |s.free| && q < |s.page| && s.page[q] == Page(NotHead, n) && Upper(q, n) && !Upper(p, n)
            && Inv(Split(s, p), hold, -1) && Pow2(n + 1) == 2 * Pow2(n)
            && Unused(Split(s, p), hold) == Unused(s, hold) + Run(q, Pow2(n))
  {
    hide Tiles, Lists, Canonical, Upper, Aligned, Pow2, FreePages, Run;
    HalfReady(s.k, s.page, s.own, p);
    assert |s.free| == s.k by { ListsLen(s.k, s.page, hold, s.free); }
    var n := s.page[p].ord - 1;
    var q := p + Pow2(n);
    SplitTiles(s.page, s.own, p, n);
    SplitLists(s.page, hold, p, q, s.k, s.free);
    SplitCanonical(s.page, hold, p, q, s.k);
    SplitPages(s.page, s.own, hold, p, n);
  }

  lemma ListsLen(k: nat, page: seq<Page>, hold: set<int>, free: seq<seq<int>>)
    requires Lists(k, page, hold, free)
    ensures |free| == k
  {
  }

  // ---------------------------------------------------------------- on and off the lists

  lemma BlockPages(page: seq<Page>, own: seq<int>, hold: set<int>, x: int)
    requires Tiles(page, own) && FreeHead(page, hold, x) && x + Pow2(page[x].ord) <= |page|
    ensures FreePages(page, own, hold + {x}) == FreePages(page, own, hold) - Run(x, Pow2(page[x].ord))
    ensures Run(x, Pow2(page[x].ord)) <= FreePages(page, own, hold)
  {
    hide Pow2;
    RunIs(x, Pow2(page[x].ord));
    forall j | 0 <= j < |own| ensures own[j] == x <==> x <= j < x + Pow2(page[x].ord) {
      assert In(page, own[j], j);
      assert In(page, x, j) ==> own[j] == x;
    }
  }

  /** Off the list and into the allocator's hands. */
  ghost function Pop(s: Pool, x: int): Pool
    requires 0 <= x < |s.page| && s.page[x].ord < |s.free| && x in s.free[s.page[x].ord]
  {
    s.(free := s.free[s.page[x].ord := Del(s.free[s.page[x].ord], x)])
  }

  lemma PopLists(page: seq<Page>, hold: set<int>, k: nat, free: seq<seq<int>>, x: int)
    requires Lists(k, page, hold, free) && FreeHead(page, hold, x) && page[x].ord < k
    ensures x in free[page[x].ord]
    ensures Lists(k, page, hold + {x}, free[page[x].ord := Del(free[page[x].ord], x)])
  {
    hide ListOf, Del;
    var n, hold' := page[x].ord, hold + {x};
    forall o: nat, y ensures FreeOf(page, hold', o, y) <==> FreeOf(page, hold, o, y) && y != x {}
    ListDel(page, hold, page, hold', n, free[n], x);
    forall o | 0 <= o < k && o != n ensures ListOf(page, hold', o, free[o]) {
      assert !FreeOf(page, hold, o, x);
      ListSame(page, hold, page, hold', o, free[o]);
    }
  }

  lemma CanonicalLess(k: nat, page: seq<Page>, hold: set<int>, page': seq<Page>, hold': set<int>, exc: int)
    requires Canonical(k, page, hold, -1)
    requires forall o: nat, x :: FreeOf(page', hold', o, x) ==> FreeOf(page, hold, o, x) || x == exc
    ensures Canonical(k, page', hold', exc)
  {
    hide Upper, Pow2;
    forall o: nat, x | o + 1 < k && Apart(page', hold', o, x) ensures x == exc || x + Pow2(o) == exc {
      assert FreeOf(page', hold', o, x) && FreeOf(page', hold', o, x + Pow2(o));
      assert x == exc || x + Pow2(o) == exc || Apart(page, hold, o, x);
    }
  }

  lemma PopKeeps(s: Pool, hold: set<int>, x: int)
    requires Inv(s, hold, -1) && FreeHead(s.page, hold, x)
    ensures s.page[x].ord < |s.free| && x in s.free[s.page[x].ord]
    ensures Inv(Pop(s, x), hold + {x}, -1) && Run(x, Pow2(s.page[x].ord)) <= Unused(s, hold)
    ensures Unused(Pop(s, x), hold + {x}) == Unused(s, hold) - Run(x, Pow2(s.page[x].ord))
  {
    hide Tiles, Lists, Canonical, FreePages, Aligned, Pow2, Del, Run;
    BlockEnds(s.k, s.page, x);
    BlockPages(s.page, s.own, hold, x);
    ListsLen(s.k, s.page, hold, s.free);
    PopLists(s.page, hold, s.k, s.free, x);
    CanonicalLess(s.k, s.page, hold, s.page, hold + {x}, -1);
  }

  /** A block gets a new type. */
  ghost function Take(s: Pool, x: int, ty: PageType): Pool
    requires 0 <= x < |s.page|
  {
    s.(page := s.page[x := s.page[x].(ty := ty)])
  }

  lemma TakeTiles(k: nat, page: seq<Page>, own: seq<int>, x: int, ty: PageType)
    requires Orders(k, page) && Tiles(page, own) && Head(page, x) && ty != NotHead
    ensures Orders(k, page[x := page[x].(ty := ty)]) && Tiles(page[x := page[x].(ty := ty)], own)
  {
    hide Aligned, Pow2;
    var page' := page[x := page[x].(ty := ty)];
    forall j | 0 <= j < |page'| ensures Head(page', own[j]) && In(page', own[j], j) {
      assert Head(page, own[j]) && In(page, own[j], j);
    }
    forall y, j | Head(page', y) && In(page', y, j) ensures own[j] == y {
      assert In(page, y, j);
    }
  }

  lemma TakeKeeps(s: Pool, hold: set<int>, x: int, ty: PageType)
    requires Inv(s, hold, -1) && x in hold && ty != Free && ty != NotHead
    ensures Inv(Take(s, x, ty), hold - {x}, -1)
    ensures Unused(Take(s, x, ty), hold - {x}) == Unused(s, hold)
  {
    hide Aligned, Upper, Pow2, ListOf;
    var page', hold' := Take(s, x, ty).page, hold - {x};
    TakeTiles(s.k, s.page, s.own, x, ty);
    forall y ensures FreeHead(page', hold', y) <==> FreeHead(s.page, hold, y) {}
    forall o: nat, y ensures FreeOf(page', hold', o, y) <==> FreeOf(s.page, hold, o, y) {}
    forall o | 0 <= o < s.k ensures ListOf(page', hold', o, s.free[o]) {
      ListSame(s.page, hold, page', hold', o, s.free[o]);
    }
    CanonicalLess(s.k, s.page, hold, page', hold', -1);
  }

  /** A block given back goes to its place in the list of its order. */
  ghost function Release(s: Pool, p: int): Pool
    requires 0 <= p < |s.page| && s.page[p].ord < |s.free|
  {
    var n := s.page[p].ord;
    Take(s, p, Free).(free := s.free[n := Put(s.free[n], p, n)])
  }

  lemma ReleaseLists(k: nat, page: seq<Page>, free: seq<seq<int>>, p: int)
    requires Lists(k, page, {}, free) && 0 <= p < |page| && page[p].ord < k && page[p].ty != Free
    ensures var n := page[p].ord;
            Lists(k, page[p := page[p].(ty := Free)], {}, free[n := Put(free[n], p, n)])
  {
    hide ListOf, Put;
    var n, page' := page[p].ord, page[p := page[p].(ty := Free)];
    forall o: nat, y ensures FreeOf(page', {}, o, y) <==> FreeOf(page, {}, o, y) || (o == n && y == p) {}
    ListPut(page, {}, page', {}, n, free[n], p);
    forall o | 0 <= o < k && o != n ensures ListOf(page', {}, o, free[o]) {
      ListSame(page, {}, page', {}, o, free[o]);
    }
  }

  lemma ReleaseKeeps(s: Pool, p: int)
    requires Inv(s, {}, -1) && Head(s.page, p) && s.page[p].ty != Free
    ensures s.page[p].ord < |s.free| && Inv(Release(s, p), {}, p)
    ensures Unused(Release(s, p), {}) == Unused(s, {}) + Run(p, Pow2(s.page[p].ord))
    ensures Run(p, Pow2(s.page[p].ord)) !! Unused(s, {})
  {
    var page' := Take(s, p, Free).page;
    TakeTiles(s.k, s.page, s.own, p, Free);
    BlockEnds(s.k, page', p);
    BlockPages(page', s.own, {}, p);
    ListsLen(s.k, s.page, {}, s.free);
    ReleaseLists(s.k, s.page, s.free, p);
    forall o: nat, y ensures FreeOf(page', {}, o, y) ==> FreeOf(s.page, {}, o, y) || y == p {}
    CanonicalLess(s.k, s.page, {}, page', {}, p);
    hide Tiles, Lists, Canonical;
    forall y ensures FreeHead(page', {} + {p}, y) <==> FreeHead(s.page, {}, y) {}
    assert FreePages(page', s.own, {} + {p}) == FreePages(s.page, s.own, {});
  }

  // ---------------------------------------------------------------- merging buddies

  ghost function MergePage(page: seq<Page>, p: int, q: int): seq<Page>
    requires 0 <= p < |page| && 0 <= q < |page|
  {
    page[q := page[q].(ty := NotHead)][p := page[p].(ord := page[p].ord + 1)]
  }

  lemma MergeOrders(k: nat, page: seq<Page>, p: int, n: nat)
    requires Orders(k, page) && 0 <= p && p + Pow2(n) < |page| && n + 1 < k && !Upper(p, n)
    requires page[p].ord == n && page[p + Pow2(n)].ord == n
    ensures Orders(k, MergePage(page, p, p + Pow2(n)))
  {
    hide Aligned, Upper, Pow2;
    Halves(p, n);
    SecondHalf(p, n);
  }

  lemma MergeTiles(page: seq<Page>, own: seq<int>, p: int, n: nat)
    requires Tiles(page, own) && Head(page, p) && Head(page, p + Pow2(n)) && Pow2(n + 1) == 2 * Pow2(n)
    requires page[p].ord == n && page[p + Pow2(n)].ord == n
    ensures Tiles(MergePage(page, p, p + Pow2(n)), Reown(own, p + Pow2(n), Pow2(n), p))
  {
    hide Pow2;
    var q := p + Pow2(n);
    var page', own' := MergePage(page, p, q), Reown(own, q, Pow2(n), p);
    forall j | 0 <= j < |page'| ensures Head(page', own'[j]) && In(page', own'[j], j) {
      assert Head(page, own[j]) && In(page, own[j], j);
      assert own[j] == q ==> In(page, q, j);
    }
    forall x, j | Head(page', x) && In(page', x, j) ensures own'[j] == x {
      assert In(page, q, j) ==> own[j] == q;
      if x == p {
        assert In(page, p, j) || In(page, q, j);
      } else {
        assert In(page, x, j) && own[j] == x;
      }
    }
  }

  lemma MergeLists(k: nat, page: seq<Page>, free: seq<seq<int>>, p: int, q: int, n: nat)
    requires Lists(k, page, {}, free) && n + 1 < k && FreeOf(page, {}, n, p) && FreeOf(page, {}, n, q) && p != q
    ensures p in free[n] && q in Del(free[n], p)
    ensures Lists(k, MergePage(page, p, q), {}, free[n := Del(Del(free[n], p), q)][n + 1 := Put(free[n + 1], p, n + 1)])
  {
    hide ListOf, Put, Del;
    var page' := MergePage(page, p, q);
    forall o: nat, x ensures FreeOf(page', {}, o, x) <==>
      (FreeOf(page, {}, o, x) && !(o == n && (x == p || x == q))) || (o == n + 1 && x == p) {}
    ListDel(page, {}, page, {p}, n, free[n], p);
    ListDel(page, {p}, page', {}, n, Del(free[n], p), q);
    ListPut(page, {}, page', {}, n + 1, free[n + 1], p);
    forall o | 0 <= o < k && o != n && o != n + 1 ensures ListOf(page', {}, o, free[o]) {
      ListSame(page, {}, page', {}, o, free[o]);
    }
  }

  lemma MergeCanonical(k: nat, page: seq<Page>, p: int, q: int, n: nat, e: int)
    requires Canonical(k, page, {}, e) && (e == p || e == q) && FreeOf(page, {}, n, p) && FreeOf(page, {}, n, q)
      && p != q
    ensures Canonical(k, MergePage(page, p, q), {}, p)
  {
    hide Upper, Pow2;
    var page' := MergePage(page, p, q);
    forall o: nat, x | o + 1 < k && Apart(page', {}, o, x) ensures x == p || x + Pow2(o) == p {
      assert FreeOf(page', {}, o, x) && FreeOf(page', {}, o, x + Pow2(o));
      assert x != q && x + Pow2(o) != q;
      assert x == p || x + Pow2(o) == p || Apart(page, {}, o, x);
    }
  }

  lemma MergePages(page: seq<Page>, own: seq<int>, p: int, n: nat)
    requires Tiles(page, own) && FreeOf(page, {}, n, p) && FreeOf(page, {}, n, p + Pow2(n))
    ensures FreePages(MergePage(page, p, p + Pow2(n)), Reown(own, p + Pow2(n), Pow2(n), p), {})
      == FreePages(page, own, {})
  {
    hide Pow2;
    var q := p + Pow2(n);
    var page', own' := MergePage(page, p, q), Reown(own, q, Pow2(n), p);
    forall j | 0 <= j < |own| ensures FreeHead(page', {}, own'[j]) <==> FreeHead(page, {}, own[j]) {
      assert Head(page, own[j]) && In(page, own[j], j);
      assert In(page, q, j) ==> own[j] == q;
    }
  }

  ghost function Merge(s: Pool, p: int, n: nat): Pool
    requires 0 <= p && p + Pow2(n) < |s.page| && n + 1 < |s.free|
    requires p in s.free[n] && p + Pow2(n) in Del(s.free[n], p)
  {
    var q := p + Pow2(n);
    Pool(s.k, MergePage(s.page, p, q), Reown(s.own, q, Pow2(n), p),
         s.free[n := Del(Del(s.free[n], p), q)][n + 1 := Put(s.free[n + 1], p, n + 1)])
  }

  lemma MergeKeeps(s: Pool, p: int, n: nat, e: int)
    requires Inv(s, {}, e) && n + 1 < s.k && Apart(s.page, {}, n, p) && (e == p || e == p + Pow2(n))
    ensures |s.free| == s.k && p in s.free[n] && p + Pow2(n) in Del(s.free[n], p)
    ensures Inv(Merge(s, p, n), {}, p) && Unused(Merge(s, p, n), {}) == Unused(s, {})
    ensures Upper(e, n + 1) <==> Upper(p, n + 1)
  {
    ListsLen(s.k, s.page, {}, s.free);
    assert Pow2(n + 1) == 2 * Pow2(n);
    Halves(p, n);
    SameUpper(p, n);
    hide Tiles, Lists, Canonical, Upper, Aligned, Pow2, FreePages, Del;
    MergeOrders(s.k, s.page, p, n);
    MergeTiles(s.page, s.own, p, n);
    MergeLists(s.k, s.page, s.free, p, p + Pow2(n), n);
    MergeCanonical(s.k, s.page, p, p + Pow2(n), n, e);
    MergePages(s.page, s.own, p, n);
  }

  // ---------------------------------------------------------------- free blocks follow from free pages

  /** An aligned run of free pages lies in one free block. */
  lemma {:induction false} RunInBlock(s: Pool, x: int, n: nat)
    requires Inv(s, {}, -1) && n < s.k && Aligned(x, n) && Run(x, Pow2(n)) <= Unused(s, {})
    ensures 0 <= x < |s.page| == |s.own| && FreeHead(s.page, {}, s.own[x]) && n <= s.page[s.own[x]].ord
    decreases n
  {
    hide Aligned, Upper, Inv, FreePages;
    InvParts(s);
    if n > 0 {
      hide Run, Unused;
      RunSplit(x, Pow2(n - 1), Pow2(n - 1));
      SecondHalf(x, n - 1);
      RunInBlock(s, x, n - 1);
      RunInBlock(s, x + Pow2(n - 1), n - 1);
      HalvesInBlock(s, x, n - 1);
    } else {
      assert x in Run(x, 1);
      assert x in FreePages(s.page, s.own, {});
      FreePage(s.page, s.own, x);
    }
  }

  lemma FreePage(page: seq<Page>, own: seq<int>, x: int)
    requires x in FreePages(page, own, {})
    ensures 0 <= x < |own| && FreeHead(page, {}, own[x])
  {
  }

  lemma {:induction false} RunSplit(x: int, m: nat, n: nat)
    ensures Run(x, m + n) == Run(x, m) + Run(x + m, n)
  {
    if n > 0 {
      RunSplit(x, m, n - 1);
    }
  }

  lemma InvParts(s: Pool)
    requires Inv(s, {}, -1)
    ensures |s.own| == |s.page| && Orders(s.k, s.page) && Tiles(s.page, s.own)
  {
  }

  lemma BuddiesMerged(s: Pool, n: nat, x: int)
    requires Inv(s, {}, -1) && n + 1 < s.k
    ensures !Apart(s.page, {}, n, x)
  {
  }

  lemma HalvesInBlock(s: Pool, x: int, n: nat)
    requires Inv(s, {}, -1) && n + 1 < s.k && Aligned(x, n + 1) && 0 <= x && x + Pow2(n) < |s.page| == |s.own|
    requires FreeHead(s.page, {}, s.own[x]) && FreeHead(s.page, {}, s.own[x + Pow2(n)])
    requires s.page[s.own[x]].ord >= n && s.page[s.own[x + Pow2(n)]].ord >= n
    ensures s.page[s.own[x]].ord > n
  {
    hide Aligned, Upper, Pow2, Tiles, Orders, Inv;
    InvParts(s);
    var y := x + Pow2(n);
    SecondHalf(x, n);
    if s.page[s.own[x]].ord == n {
      SameBlock(s, x, n);
      if s.page[s.own[y]].ord == n {
        SameBlock(s, y, n);
        BuddiesMerged(s, n, x);
      } else {
        BigBlock(s, y, n);
      }
    }
  }

  /** A block of order `n` that holds a page aligned to that order starts there. */
  lemma SameBlock(s: Pool, x: int, n: nat)
    requires Orders(s.k, s.page) && Tiles(s.page, s.own) && 0 <= x < |s.page| == |s.own| && Aligned(x, n)
    requires Head(s.page, s.own[x]) && s.page[s.own[x]].ord <= n
    ensures s.own[x] == x
  {
    hide Aligned, Pow2;
    var h := s.own[x];
    assert In(s.page, h, x);
    Coarser(x, n, s.page[h].ord);
    if h < x {
      AlignedMultiples(s.page[h].ord, h, x);
    }
  }

  /** A block beyond order `n` that holds the upper half of an aligned run holds the lower
      half too. */
  lemma BigBlock(s: Pool, y: int, n: nat)
    requires Orders(s.k, s.page) && Tiles(s.page, s.own) && 0 <= y < |s.page| == |s.own| && Aligned(y, n) && Upper(y, n)
    requires Head(s.page, s.own[y]) && s.page[s.own[y]].ord > n
    ensures 0 <= y - Pow2(n) && s.own[y - Pow2(n)] == s.own[y]
  {
    hide Aligned, Pow2, Upper;
    var h, x := s.own[y], y - Pow2(n);
    assert In(s.page, h, y);
    FirstHalf(y, n);
    Coarser(h, s.page[h].ord, n + 1);
    assert h <= x by {
      if x < h {
        AlignedMultiples(n + 1, x, h);
        assert Pow2(n + 1) == 2 * Pow2(n) by { PowStep(n); }
      }
    }
    assert In(s.page, h, x);
  }

  lemma PowStep(n: nat)
    ensures Pow2(n + 1) == 2 * Pow2(n)
  {
  }

  /** The whole of a free block is free. */
  lemma BlockUnused(s: Pool, x: int)
    requires Inv(s, {}, -1) && FreeHead(s.page, {}, x)
    ensures s.page[x].ord < s.k && Aligned(x, s.page[x].ord) && Run(x, Pow2(s.page[x].ord)) <= Unused(s, {})
    ensures s.own[x] == x
  {
    hide Lists, Canonical, Pow2, Aligned;
    BlockEnds(s.k, s.page, x);
    BlockPages(s.page, s.own, {}, x);
    assert In(s.page, x, x);
  }

  /** Which free blocks there are follows from which pages are free. */
  lemma FreeBlocksUnique(s: Pool, t: Pool, x: int)
    requires Inv(s, {}, -1) && Inv(t, {}, -1) && s.k == t.k && Unused(s, {}) == Unused(t, {})
    requires FreeHead(s.page, {}, x)
    ensures FreeHead(t.page, {}, x) && t.page[x].ord == s.page[x].ord
  {
    hide Inv, Unused, Pow2, Aligned, Run;
    InvParts(s);
    InvParts(t);
    var n := s.page[x].ord;
    BlockUnused(s, x);
    RunInBlock(t, x, n);
    var h := t.own[x];
    BlockUnused(t, h);
    var m := t.page[h].ord;
    RunInBlock(s, h, m);
    SpansOver(s, t, x, h);
    SameBlock(t, x, n);
  }

  lemma SpansOver(s: Pool, t: Pool, x: int, h: int)
    requires Orders(s.k, s.page) && Tiles(s.page, s.own) && Orders(t.k, t.page) && Tiles(t.page, t.own)
    requires 0 <= x < |s.page| == |s.own| && 0 <= x < |t.page| == |t.own| && h == t.own[x] && Head(t.page, h)
      && h < |s.page|
    requires s.own[x] == x && Head(s.page, s.own[h]) && t.page[h].ord <= s.page[s.own[h]].ord
    ensures t.page[h].ord <= s.page[x].ord
  {
    hide Aligned, Pow2;
    var g := s.own[h];
    assert In(t.page, h, x) && In(s.page, g, h);
    Nested(h, t.page[h].ord, g, s.page[g].ord);
    assert In(s.page, g, x);
  }
}
