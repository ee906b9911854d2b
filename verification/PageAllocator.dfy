/** The page layer of the allocator. */
module PageAllocator {
  import opened List
  import opened PageMath
  import opened PagePool
  import opened PageSizes
  import opened PageFit

  datatype FreeResult = Done | BadAddress | DoubleFree | NotHeadFree | BadType

  /** A page that somebody outside the allocator holds. */
  predicate Live(ty: PageType) {
    ty != Free && ty != NotHead
  }

  /** Nothing held outside the allocator differs, but for the pages in `exc`. */
  ghost predicate SameLive(page: seq<Page>, page': seq<Page>, exc: set<int>) {
    && |page'| == |page|
    && forall x :: 0 <= x < |page| && x !in exc && (Live(page[x].ty) || Live(page'[x].ty)) ==> page'[x] == page[x]
  }

  /** A two-block allocation is followed by its second block. */
  ghost predicate Paired(page: seq<Page>) {
    forall x :: 0 <= x < |page| && page[x].ty == Cont ==> PairOk(page, x)
  }

  ghost predicate PairOk(page: seq<Page>, x: int) {
    && 0 <= x < |page| && !Upper(x, page[x].ord) && x + Pow2(page[x].ord) < |page|
    && page[x + Pow2(page[x].ord)].ty == Allocated && page[x + Pow2(page[x].ord)].ord < page[x].ord
  }

  /** The second block of a two-block allocation, which is not handed out by itself. */
  ghost predicate Tail(page: seq<Page>, q: int) {
    exists x :: 0 <= x < |page| && page[x].ty == Cont && x + Pow2(page[x].ord) == q
  }

  /** `len` pages of `u` in a row, from a page aligned to order `a` on. */
  ghost predicate Stretch(u: set<int>, a: nat, len: nat, x: int) {
    Aligned(x, a) && Run(x, len) <= u
  }

  ghost predicate Room(u: set<int>, a: nat, len: nat) {
    exists x :: Stretch(u, a, len, x)
  }

  /** The pages of an allocation. */
  function BlockLen(page: seq<Page>, p: int): nat
    requires 0 <= p < |page|
  {
    var n := Pow2(page[p].ord);
    if page[p].ty == Cont && p + n < |page| then n + Pow2(page[p + n].ord) else n
  }

  /** The heads of the blocks of an allocation. */
  ghost function Extent(page: seq<Page>, p: int): set<int>
    requires 0 <= p < |page|
  {
    if page[p].ty == Cont then {p, p + Pow2(page[p].ord)} else {p}
  }

  ghost predicate RoomFor(u: set<int>, i: int, j: int) {
    i >= 0 && Room(u, if j < 0 then i else i + 1, SizeOf(i, j))
  }

  /** What an allocation of size `SizeOf(i, j)` at `p` has changed. */
  ghost predicate Granted(page: seq<Page>, u: set<int>, page': seq<Page>, u': set<int>, p: int, i: int, j: int) {
    && 0 <= p < |page| == |page'| && i >= 0 && Live(page'[p].ty) && !Live(page[p].ty) && !Tail(page', p)
    && page'[p] == Page(if j < 0 then Allocated else Cont, i) && BlockLen(page', p) == SizeOf(i, j)
    && Run(p, SizeOf(i, j)) <= u && u' == u - Run(p, SizeOf(i, j)) && SameLive(page, page', Extent(page', p))
    && (j >= 0 ==> p + Pow2(i) < |page| && !Live(page[p + Pow2(i)].ty))
  }

  function Buddy(x: int, n: nat): int {
    if Upper(x, n) then x - Pow2(n) else x + Pow2(n)
  }

  lemma GiveBack(u: set<int>, p: int, m: nat)
    requires Run(p, 2 * m) <= u
    ensures u - Run(p, 2 * m) + Run(p + m, m) == u - Run(p, m) && Run(p, m) <= u
  {
    hide Run;
    RunSplit(p, m, m);
    RunsApart(p, m, p + m, m);
  }

  lemma RunsApart(x: int, m: nat, y: int, n: nat)
    requires x + m <= y
    ensures Run(x, m) !! Run(y, n)
  {
    RunIs(x, m);
    RunIs(y, n);
  }

  class Allocator {
    const k: nat
    var page: seq<Page>
    var free: seq<seq<int>>
    ghost var own: seq<int>

    ghost function S(): Pool
      reads this
    {
      Pool(k, page, own, free)
    }

    ghost predicate Valid()
      reads this
    {
      Inv(S(), {}, -1) && Paired(page)
    }

    ghost function Available(): set<int>
      reads this
    {
      Unused(S(), {})
    }

    /** `mm_init_global`: every page starts out reserved, and those not in `keep` are freed one
        by one. */
    constructor (k: nat, n: nat, keep: set<int>)
      requires k > 0 && Aligned(n, k)
      ensures Valid() && this.k == k && |page| == n && Available() == Freed(n, keep)
      ensures forall x :: 0 <= x < n && x in keep ==> page[x] == Page(Reserved, 0)
    {
      this.k := k;
      page := seq(n, i => Page(Reserved, 0));
      own := seq(n, i => i);
      free := seq(k, i => []);
      new;
      InitInv(S());
      FreeInitial(keep);
    }

    method FreeInitial(keep: set<int>)
      requires Inv(S(), {}, -1) && Available() == {}
      requires forall x :: 0 <= x < |page| ==> page[x] == Page(Reserved, 0)
      modifies this
      ensures Valid() && |page| == old(|page|) && Available() == Freed(|page|, keep)
      ensures forall x :: 0 <= x < |page| && x in keep ==> page[x] == Page(Reserved, 0)
    {
      hide Inv, Unused, Run, Pow2, Upper;
      var i, n := 0, |page|;
      while i < n
        invariant 0 <= i <= n == |page| && Inv(S(), {}, -1) && Available() == Freed(i, keep)
        invariant forall x :: 0 <= x < n && (i <= x || x in keep) ==> page[x] == Page(Reserved, 0)
        invariant forall x :: 0 <= x < n ==> page[x].ty != Cont
      {
        if i !in keep {
          var r := FreeSub(i);
          RunOne(i);
        }
        i := i + 1;
      }
    }

    /** `mm_page_free_2ndhalf` */
    method FreeSecondHalf(p: int, ghost hold: set<int>) returns (q: int)
      requires Inv(S(), hold, -1) && p in hold && page[p].ord > 0
      modifies this
      ensures Inv(S(), hold, -1) && q == p + Pow2(page[p].ord)
      ensures page[p] == Page(Free, old(page[p].ord) - 1) && q < |page| && page[q] == Page(Free, page[p].ord)
        && q !in hold
      ensures Upper(q, page[q].ord) && !Upper(p, page[p].ord)
      ensures Pow2(old(page[p].ord)) == 2 * Pow2(page[p].ord)
      ensures Unused(S(), hold) == old(Unused(S(), hold)) + Run(q, Pow2(page[p].ord))
      ensures SameLive(old(page), page, {}) && forall x :: x in hold && x != p ==> page[x] == old(page[x])
    {
      hide Inv, Unused, Pow2, Upper, Run;
      SplitKeeps(S(), hold, p);
      InHold(S(), hold, p);
      ghost var s := S();
      var n := page[p].ord - 1;
      assert !Upper(p, n);
      page := page[p := page[p].(ord := n)];
      q := p + Pow2(n);
      page := page[q := page[q].(ty := Free)];
      free := free[n := free[n] + [q]];
      own := Reown(own, q, Pow2(n), q);
      assert S() == Split(s, p);
    }

    /** `mm_page_alloc_sub`: a block of order `n` in hand, or -1. */
    method AllocSub(n: nat) returns (p: int)
      requires Inv(S(), {}, -1)
      modifies this
      ensures p == -1 ==> S() == old(S()) && forall o :: n <= o < k ==> free[o] == []
      ensures p != -1 ==> n < k && Inv(S(), {p}, -1) && page[p].ord == n && Run(p, Pow2(n)) <= old(Available())
      ensures p != -1 ==> Unused(S(), {p}) == old(Available()) - Run(p, Pow2(n))
      ensures p != -1 ==> BestFit(old(Available()), k, n, p)
      ensures SameLive(old(page), page, {})
    {
      hide Inv, Unused, Pow2, Upper, Run, Del, BestFit;
      ghost var u := Available();
      InHold(S(), {}, -1);
      var i := n;
      while i < k
        invariant n <= i && S() == old(S()) && forall o :: n <= o < i && o < k ==> free[o] == []
      {
        if free[i] != [] {
          p := free[i][0];
          InList(S(), i, 0);
          FirstBest(S(), n, i);
          PopKeeps(S(), {}, p);
          ghost var s := S();
          free := free[i := free[i][1..]];
          assert S() == Pop(s, p) by { DelFirst(s.free[i]); }
          assert {} + {p} == {p};
          while page[p].ord > n
            invariant 0 <= p < |page| && n <= page[p].ord && Inv(S(), {p}, -1) && SameLive(old(page), page, {})
            invariant Run(p, Pow2(page[p].ord)) <= u && Unused(S(), {p}) == u - Run(p, Pow2(page[p].ord))
            decreases page[p].ord
          {
            PowStep(page[p].ord - 1);
            GiveBack(u, p, Pow2(page[p].ord - 1));
            var q := FreeSecondHalf(p, {p});
          }
          return;
        }
        i := i + 1;
      }
      p := -1;
    }

    /** `mm_page_alloc`: fails only when no aligned run of that many free pages exists. */
    method Alloc(n: nat) returns (p: int)
      requires Valid() && n < k
      modifies this
      ensures Valid()
      ensures p != -1 <==> Room(old(Available()), n, Pow2(n))
      ensures p == -1 ==> S() == old(S())
      ensures p != -1 ==>
        && 0 <= p < |page| && page[p] == Page(Allocated, n) && Stretch(old(Available()), n, Pow2(n), p)
        && Available() == old(Available()) - Run(p, Pow2(n)) && SameLive(old(page), page, {p}) && !Live(old(page[p].ty))
        && BestFit(old(Available()), k, n, p) && BlocksKept(old(Available()), Available(), k, {p})
    {
      hide Inv, Unused, Pow2, Upper, Run, Aligned, BestFit, BlocksKept;
      ghost var s := S();
      InHold(s, {}, -1);
      p := AllocSub(n);
      if p == -1 {
        NoRun(s, n);
        return;
      }
      InHold(S(), {p}, p);
      assert page[p].ty == Free;
      TakeKeeps(S(), {p}, p, Allocated);
      assert {p} - {p} == {};
      HeldAligned(S(), {p}, p);
      page := page[p := page[p].(ty := Allocated)];
      FitKeeps(old(Available()), k, n, p, Pow2(n));
      assert Stretch(old(Available()), n, Pow2(n), p);
    }

    /** The scan of `mm_page_alloc_cont`, which stops at the first upper half. */
    method ScanPair(n: nat, m: nat) returns (p: int)
      requires Inv(S(), {}, -1) && n < k
      ensures p != -1 ==> FreeOf(page, {}, n, p) && PairAt(page, p, n, m)
      ensures p == -1 ==> forall x :: FreeOf(page, {}, n, x) ==> !PairAt(page, x, n, m)
    {
      hide Inv, Pow2, Upper, PairAt;
      InHold(S(), {}, -1);
      var i := 0;
      while i < |free[n]|
        invariant 0 <= i <= |free[n]| && forall j :: 0 <= j < i ==> !PairAt(page, free[n][j], n, m)
      {
        p := free[n][i];
        InList(S(), n, i);
        if Upper(p, n) {
          NoPairBeyond(S(), n, m, i);
          return -1;
        }
        LowerEnds(S(), n, p);
        var q := p + Pow2(n);
        PairIs(page, p, n, m);
        if page[q].ty == Free && page[q].ord >= m {
          return;
        }
        i := i + 1;
      }
      NoPairBeyond(S(), n, m, i);
      p := -1;
    }

    /** `mm_page_alloc_cont`: a block of order `n` followed by one of order `m`.  It fails
        only when no such stretch of free pages exists. */
    method AllocCont(n: nat, m: nat) returns (p: int)
      requires Valid() && m < n < k
      modifies this
      ensures Valid()
      ensures p != -1 <==> Room(old(Available()), n + 1, Pow2(n) + Pow2(m))
      ensures p == -1 ==> S() == old(S())
      ensures p != -1 ==>
        && var q := p + Pow2(n);
        && 0 <= p && q < |page| && page[p] == Page(Cont, n) && page[q] == Page(Allocated, m)
        && Stretch(old(Available()), n + 1, Pow2(n) + Pow2(m), p)
          && Available() == old(Available()) - Run(p, Pow2(n) + Pow2(m))
        && SameLive(old(page), page, {p, q}) && !Live(old(page[p].ty)) && !Live(old(page[q].ty))
      ensures p != -1 ==>
        var u := old(Available());
        && (if exists x :: PairFit(u, k, n, m, x) then PairFit(u, k, n, m, p) else BestFit(u, k, n + 1, p))
        && BlocksKept(u, Available(), k, {p, p + Pow2(n)})
    {
      hide Inv, Unused, Pow2, Upper, Run, Aligned, Del, PairAt, Paired, SameLive, BestFit, PairFit, BlocksKept;
      ghost var s, u := S(), Available();
      InHold(s, {}, -1);
      var q;
      p := ScanPair(n, m);
      PairsAre(s, n, m);
      if p != -1 {
        PairIs(page, p, n, m);
        PopKeeps(s, {}, p);
        free := free[n := Del(free[n], p)];
        q := p + Pow2(n);
        assert S() == Pop(s, p) && {} + {p} == {p};
        SameLiveSelf(page);
        LowerEnds(s, n, p);
      } else {
        p := AllocSub(n + 1);
        if p == -1 {
          NoPair(s, n, m);
          return;
        }
        ghost var page1 := page;
        InHold(S(), {p}, p);
        HeldAligned(S(), {p}, p);
        PowStep(n);
        GiveBack(u, p, Pow2(n));
        q := FreeSecondHalf(p, {p});
        SameLiveChain(s.page, page1, page, {});
        PairedSame(s.page, page);
      }
      ghost var page2 := page;
      WasFree(s.page, page2, p, q);
      TakeTail(p, q, n, m, u);
      SameLiveChain(s.page, page2, page, {p, q});
      ContKeeps(s, n, m, p);
      assert Stretch(u, n + 1, Pow2(n) + Pow2(m), p);
    }

    /** The end of `mm_page_alloc_cont`: the second block comes off its list, is cut down to
        order `m`, and both blocks get their types. */
    method TakeTail(p: int, q: int, n: nat, m: nat, ghost u: set<int>)
      requires Inv(S(), {p}, -1) && FreeHead(page, {p}, q) && q == p + Pow2(n) && 0 <= p < |page| && page[p].ord == n
      requires page[q].ord >= m && Unused(S(), {p}) == u - Run(p, Pow2(n)) && Run(p, Pow2(n)) <= u
      requires !Upper(p, n) && Paired(page) && m < n
      modifies this
      ensures Valid() && Available() == u - Run(p, Pow2(n) + Pow2(m)) && Run(p, Pow2(n) + Pow2(m)) <= u
      ensures |page| == old(|page|) && page[p] == Page(Cont, n) && page[q] == Page(Allocated, m)
      ensures SameLive(old(page), page, {p, q})
    {
      hide Inv, Unused, Pow2, Upper, Run, Aligned, Del, Paired;
      ghost var s, v := S(), Unused(S(), {p});
      InHold(s, {p}, p);
      PopKeeps(s, {p}, q);
      free := free[page[q].ord := Del(free[page[q].ord], q)];
      assert S() == Pop(s, q) && {p} + {q} == {p, q};
      assert page[p].ty == Free && page[q].ty == Free;
      TakeKeeps(S(), {p, q}, p, Cont);
      assert {p, q} - {p} == {q};
      page := page[p := page[p].(ty := Cont)];
      assert Inv(S(), {q}, -1);
      while page[q].ord > m
        invariant |page| == old(|page|) && page[p] == Page(Cont, n) && m <= page[q].ord && Inv(S(), {q}, -1)
        invariant Run(q, Pow2(page[q].ord)) <= v && Unused(S(), {q}) == v - Run(q, Pow2(page[q].ord))
        invariant SameLive(old(page), page, {p, q})
        decreases page[q].ord
      {
        PowStep(page[q].ord - 1);
        GiveBack(v, q, Pow2(page[q].ord - 1));
        var r := FreeSecondHalf(q, {q});
      }
      TakeKeeps(S(), {q}, q, Allocated);
      assert {q} - {q} == {};
      page := page[q := page[q].(ty := Allocated)];
      RunSplit(p, Pow2(n), Pow2(m));
      PairedNew(s.page, page, p, n, m);
    }

    /** `mm_page_free_sub`: gives a block back, or both blocks of a two-block allocation,
        and merges free buddies upwards.  It also frees the second block of a pair by itself,
        which leaves the first one without its partner. */
    method FreeSub(p: int) returns (r: FreeResult)
      requires Valid() && 0 <= p < |page|
      modifies this
      ensures Inv(S(), {}, -1) && |page| == old(|page|) && (Valid() <==> !Tail(old(page), p))
      ensures r == FreeResultOf(old(page[p].ty))
      ensures r != Done ==> S() == old(S())
      ensures r == Done && old(page[p].ty) != Cont ==>
        && Available() == old(Available()) + Run(p, Pow2(old(page[p].ord)))
          && Run(p, Pow2(old(page[p].ord))) !! old(Available())
        && SameLive(old(page), page, {p}) && !Live(page[p].ty)
      ensures r == Done && old(page[p].ty) == Cont ==>
        var q := p + Pow2(old(page[p].ord));
        && q < |page| && Available() == old(Available()) + Run(p, Pow2(old(page[p].ord)) + Pow2(old(page[q].ord)))
        && Run(p, Pow2(old(page[p].ord)) + Pow2(old(page[q].ord))) !! old(Available())
        && SameLive(old(page), page, {p, q}) && !Live(page[p].ty) && !Live(page[q].ty)
      decreases page[p].ty == Cont
    {
      hide Inv, Unused, Pow2, Upper, Run, Aligned, Tail;
      ghost var s, u := S(), Available();
      var n := page[p].ord;
      if Tail(page, p) {
        TailAllocated(page, p);
      }
      if page[p].ty == Cont {
        if Upper(p, n) {
          return BadAddress;
        }
        var q := p + Pow2(n);
        NotTwoTails(s, p);
        RetypeKeeps(s, p, Allocated);
        page := page[p := page[p].(ty := Allocated)];
        assert S() == Take(s, p, Allocated);
        ghost var page1 := page;
        NotTail(s.page, page1, {p}, p);
        r := FreeSub(q);
        RunSplit(p, Pow2(n), Pow2(s.page[q].ord));
        NotTail(page1, page, {q}, p);
      }
      match page[p].ty {
        case Free => return DoubleFree;
        case NotHead => return NotHeadFree;
        case Allocated =>
        case Reserved =>
        case _ => return BadType;
      }
      ghost var page2 := page;
      GiveBlockBack(p);
      PairedLess(page2, page, p);
      r := Done;
    }

    /** An allocation and its free leave the lists as they were, up to their order. */
    method AllocFree(n: nat) returns (p: int)
      requires Valid() && n < k
      modifies this
      ensures Valid() && Available() == old(Available()) && SameLive(old(page), page, {})
      ensures |free| == |old(free)| == k && forall o :: 0 <= o < k ==> multiset(free[o]) == multiset(old(free)[o])
    {
      hide Inv, Unused, Run, Paired;
      ghost var s := S();
      p := Alloc(n);
      if p != -1 {
        FreshNotTail(s.page, page, p);
        var r := FreeSub(p);
      }
      AllRestored(s, S());
    }

    /** The same for a two-block allocation. */
    method AllocContFree(n: nat, m: nat) returns (p: int)
      requires Valid() && m < n < k
      modifies this
      ensures Valid() && Available() == old(Available()) && SameLive(old(page), page, {})
      ensures |free| == |old(free)| == k && forall o :: 0 <= o < k ==> multiset(free[o]) == multiset(old(free)[o])
    {
      hide Inv, Unused, Run, Paired;
      ghost var s := S();
      p := AllocCont(n, m);
      if p != -1 {
        FreshNotTail(s.page, page, p);
        var r := FreeSub(p);
      }
      AllRestored(s, S());
    }

    /** One round of the merge loop of `mm_page_free_sub`. */
    method MergeOnce(v: int, n: nat) returns (lo: int)
      requires Inv(S(), {}, v) && n < k - 1 && FreeOf(page, {}, n, v) && FreeOf(page, {}, n, Buddy(v, n))
      modifies this
      ensures Inv(S(), {}, lo) && FreeOf(page, {}, n + 1, lo) && Available() == old(Available())
      ensures SameLive(old(page), page, {})
        && forall x :: 0 <= x < |page| && !Live(old(page[x].ty)) ==> !Live(page[x].ty)
    {
      hide Inv, Unused, Pow2, Upper, Run, Aligned, Del, Put;
      ghost var t := S();
      var q, hi := Buddy(v, n), v;
      lo := q;
      if !Upper(v, n) {
        lo, hi := v, q;
      }
      BuddyApart(t, v, n);
      MergeKeeps(t, lo, n, v);
      free := free[n := Del(free[n], lo)];
      free := free[n := Del(free[n], hi)];
      page := page[hi := page[hi].(ty := NotHead)];
      page := page[lo := page[lo].(ord := page[lo].ord + 1)];
      free := free[n + 1 := if Upper(v, n + 1) then free[n + 1] + [lo] else [lo] + free[n + 1]];
      own := Reown(own, hi, Pow2(n), lo);
      PutAs(t.free[n + 1], lo, n + 1);
      assert S() == Merge(t, lo, n);
    }

    /** The rest of `mm_page_free_sub`: onto the list, then merging as long as the buddy is
        free and of the same order. */
    method GiveBlockBack(p: int)
      requires Inv(S(), {}, -1) && 0 <= p < |page| && Live(page[p].ty)
      modifies this
      ensures Inv(S(), {}, -1) && Available() == old(Available()) + Run(p, Pow2(old(page[p].ord)))
      ensures Run(p, Pow2(old(page[p].ord))) !! old(Available())
      ensures SameLive(old(page), page, {p}) && !Live(page[p].ty)
    {
      hide Inv, Unused, Pow2, Upper, Run, Aligned, Del;
      ghost var s := S();
      var n, v := page[p].ord, p;
      ReleaseKeeps(s, p);
      InHold(s, {}, -1);
      page := page[p := page[p].(ty := Free)];
      free := free[n := Put(free[n], p, n)];
      assert S() == Release(s, p);
      BuddyInRange(S(), v, n);
      while n < k - 1 && page[Buddy(v, n)].ty == Free && page[Buddy(v, n)].ord == n
        invariant Inv(S(), {}, v) && n < k && FreeOf(page, {}, n, v) && Available() == Unused(Release(s, p), {})
        invariant SameLive(old(page), page, {p}) && !Live(page[p].ty) && (n < k - 1 ==> 0 <= Buddy(v, n) < |page|)
        decreases k - n
      {
        v := MergeOnce(v, n);
        n := n + 1;
        BuddyInRange(S(), v, n);
      }
      MergedUp(S(), v, n);
    }

    /** `num_of_available_pages` */
    method NumAvailable() returns (r: nat)
      requires Valid()
      ensures r == |Available()|
    {
      hide Inv, Pow2;
      InHold(S(), {}, -1);
      r := 0;
      var i := 0;
      while i < k
        invariant 0 <= i <= k && r == Total(free, i)
      {
        var n := 0;
        while n < |free[i]|
          invariant 0 <= n <= |free[i]|
        {
          n := n + 1;
        }
        r := r + n * Pow2(i);
        i := i + 1;
      }
      CountAll(S());
    }

    /** `p->type = ...` on a block in use. */
    method Retype(p: int, ty: PageType)
      requires Valid() && 0 <= p < |page| && !Tail(page, p) && Live(ty) && ty != Cont
      requires page[p].ty != Cont && Live(page[p].ty)
      modifies this
      ensures Valid() && page == old(page)[p := old(page)[p].(ty := ty)] && Available() == old(Available())
    {
      hide Inv, Pow2, Upper, Unused;
      RetypeKeeps(S(), p, ty);
      page := page[p := page[p].(ty := ty)];
    }

    /** `alloc_pages`: the least size there is for `n` pages, in one piece.  -1 stands for
        the panics, for want of a size and for want of a stretch of free pages. */
    method AllocPages(n: int) returns (p: int, i: int, j: int)
      requires Valid()
      modifies this
      ensures Valid() && i >= -1 && (i == -1 <==> TooBig(k, n)) && (i != -1 ==> Fits(k, n, i, j))
      ensures p != -1 <==> i != -1 && RoomFor(old(Available()), i, j)
      ensures p == -1 ==> S() == old(S())
      ensures p != -1 ==> Granted(old(page), old(Available()), page, Available(), p, i, j)
    {
      hide Inv, Unused, Pow2, Upper, Run, Aligned, Fits, TooBig, Tail, Room;
      ghost var s := S();
      i, j := GetAllocPagesSize(k, n);
      FitsIs(k, n, i, j);
      if i < 0 {
        return -1, i, j;
      }
      if j < 0 {
        p := Alloc(i);
      } else {
        p := AllocCont(i, j);
      }
      if p != -1 {
        FreshNotTail(s.page, page, p);
      }
    }
  }

  lemma InHold(s: Pool, hold: set<int>, p: int)
    requires Inv(s, hold, -1)
    ensures forall x :: x in hold ==> 0 <= x < |s.page| && s.page[x].ty == Free
    ensures |s.free| == s.k
  {
  }

  lemma InList(s: Pool, o: nat, i: nat)
    requires Inv(s, {}, -1) && o < s.k && i < |s.free[o]|
    ensures FreeOf(s.page, {}, o, s.free[o][i])
  {
    assert s.free[o][i] in s.free[o];
    assert ListOf(s.page, {}, o, s.free[o]);
  }

  lemma DelFirst(l: seq<int>)
    requires l != []
    ensures l[0] in l && Del(l, l[0]) == l[1..]
  {
  }

  lemma HeldAligned(s: Pool, hold: set<int>, p: int)
    requires Inv(s, hold, -1) && p in hold
    ensures Aligned(p, s.page[p].ord)
  {
  }

  lemma NoRun(s: Pool, n: nat)
    requires Inv(s, {}, -1) && |s.free| == s.k && n < s.k && forall o :: n <= o < s.k ==> s.free[o] == []
    ensures !Room(Unused(s, {}), n, Pow2(n))
  {
    hide Inv, Unused, Pow2, Run, Aligned;
    forall x | Stretch(Unused(s, {}), n, Pow2(n), x) ensures false {
      RunInBlock(s, x, n);
      OnList(s, s.own[x]);
    }
  }

  lemma OnList(s: Pool, x: int)
    requires Inv(s, {}, -1) && FreeHead(s.page, {}, x)
    ensures s.page[x].ord < s.k == |s.free| && x in s.free[s.page[x].ord]
  {
    var o := s.page[x].ord;
    assert FreeOf(s.page, {}, o, x) && ListOf(s.page, {}, o, s.free[o]);
  }

  /** A lower half of order `n` whose buddy is the head of a free block of order `m` or more. */
  ghost predicate PairAt(page: seq<Page>, x: int, n: nat, m: nat) {
    && !Upper(x, n) && 0 <= x + Pow2(n) < |page|
    && page[x + Pow2(n)].ty == Free && page[x + Pow2(n)].ord >= m
  }

  lemma PairIs(page: seq<Page>, x: int, n: nat, m: nat)
    ensures PairAt(page, x, n, m) <==>
      !Upper(x, n) && 0 <= x + Pow2(n) < |page| && page[x + Pow2(n)].ty == Free && page[x + Pow2(n)].ord >= m
  {
  }

  lemma PairsAre(s: Pool, n: nat, m: nat)
    requires Inv(s, {}, -1) && m < n < s.k
    ensures forall x ::
      PairFit(Unused(s, {}), s.k, n, m, x) <==> FreeOf(s.page, {}, n, x) && PairAt(s.page, x, n, m)
  {
    hide Inv, Unused, Pow2, Upper, PairFit;
    forall x ensures PairFit(Unused(s, {}), s.k, n, m, x) <==> FreeOf(s.page, {}, n, x) && PairAt(s.page, x, n, m) {
      PairIff(s, n, m, x);
    }
  }

  lemma ContKeeps(s: Pool, n: nat, m: nat, p: int)
    requires Inv(s, {}, -1) && m < n < s.k
    requires PairFit(Unused(s, {}), s.k, n, m, p) || BestFit(Unused(s, {}), s.k, n + 1, p)
    ensures var u := Unused(s, {}); BlocksKept(u, u - Run(p, Pow2(n) + Pow2(m)), s.k, {p, p + Pow2(n)})
  {
    hide Inv, Unused, Pow2, Run, PairFit, BestFit, Block;
    if PairFit(Unused(s, {}), s.k, n, m, p) {
      PairKeeps(s, n, m, p);
    } else {
      PowMonotone(m, n);
      PowStep(n);
      FitKeeps(Unused(s, {}), s.k, n + 1, p, Pow2(n) + Pow2(m));
    }
  }

  lemma LowerEnds(s: Pool, n: nat, p: int)
    requires Inv(s, {}, -1) && FreeOf(s.page, {}, n, p) && !Upper(p, n)
    ensures 0 <= p && p + 2 * Pow2(n) <= |s.page| && Aligned(p, n + 1)
  {
    hide Pow2, Aligned, Upper;
    Halves(p, n);
    Coarser(|s.page|, s.k, n + 1);
    AlignedMultiples(n + 1, p, |s.page|);
    PowStep(n);
  }

  /** Behind the first upper half of a list there are only upper halves. */
  lemma NoPairBeyond(s: Pool, n: nat, m: nat, i: nat)
    requires Inv(s, {}, -1) && n < s.k == |s.free| && i <= |s.free[n]|
    requires i < |s.free[n]| ==> Upper(s.free[n][i], n)
    requires forall j :: 0 <= j < i ==> !PairAt(s.page, s.free[n][j], n, m)
    ensures forall x :: FreeOf(s.page, {}, n, x) ==> !PairAt(s.page, x, n, m)
  {
    hide Pow2, Upper, Tiles, Orders, Canonical, FreeOf;
    var l := s.free[n];
    assert ListOf(s.page, {}, n, l);
    forall x | FreeOf(s.page, {}, n, x) ensures !PairAt(s.page, x, n, m) {
      assert x in l;
      var j :| 0 <= j < |l| && l[j] == x;
      assert j >= i ==> Upper(l[j], n);
    }
  }

  lemma NoPair(s: Pool, n: nat, m: nat)
    requires Inv(s, {}, -1) && m < n < s.k == |s.free| && forall o :: n < o < s.k ==> s.free[o] == []
    requires forall x :: FreeOf(s.page, {}, n, x) ==> !PairAt(s.page, x, n, m)
    ensures !Room(Unused(s, {}), n + 1, Pow2(n) + Pow2(m))
  {
    hide Inv, Unused, Pow2, Run, Aligned, Upper, FreeOf;
    var a, len := n + 1, Pow2(n) + Pow2(m);
    forall x | Stretch(Unused(s, {}), a, len, x) ensures false {
      RunSplit(x, Pow2(n), Pow2(m));
      SecondHalf(x, n);
      Coarser(x + Pow2(n), n, m);
      StretchHead(s, x, n, n);
      StretchHead(s, x + Pow2(n), n, m);
      PairIs(s.page, x, n, m);
    }
  }

  /** With no free block beyond order `n`, a free run at a page aligned to that order is the
      start of a free block. */
  lemma StretchHead(s: Pool, x: int, n: nat, m: nat)
    requires Inv(s, {}, -1) && m <= n < s.k == |s.free| && (forall o :: n < o < s.k ==> s.free[o] == [])
    requires Aligned(x, n) && Run(x, Pow2(m)) <= Unused(s, {})
    ensures 0 <= x < |s.page| && s.page[x].ty == Free && m <= s.page[x].ord <= n
      && (m == n ==> FreeOf(s.page, {}, n, x))
  {
    hide Inv, Unused, Pow2, Run, Aligned;
    InvParts(s);
    Coarser(x, n, m);
    RunInBlock(s, x, m);
    OnList(s, s.own[x]);
    assert s.page[s.own[x]].ord <= n;
    SameBlock(s, x, n);
  }

  function FreeResultOf(ty: PageType): FreeResult {
    match ty
    case Free => DoubleFree
    case NotHead => NotHeadFree
    case Small => BadType
    case _ => Done
  }

  lemma BuddyInRange(s: Pool, v: int, n: nat)
    requires Inv(s, {}, v) && FreeOf(s.page, {}, n, v)
    ensures n < s.k && (n < s.k - 1 ==> 0 <= Buddy(v, n) < |s.page|)
  {
    hide Pow2, Aligned, Upper;
    if n < s.k - 1 {
      if Upper(v, n) {
        FirstHalf(v, n);
        if v - Pow2(n) < 0 {
          AlignedMultiples(n + 1, v - Pow2(n), 0) by { assert Aligned(0, n + 1) by { AlignedZero(n + 1); } }
          PowStep(n);
        }
      } else {
        Halves(v, n);
        Coarser(|s.page|, s.k, n + 1);
        AlignedMultiples(n + 1, v, |s.page|);
        PowStep(n);
      }
    }
  }

  lemma AlignedZero(n: nat)
    ensures Aligned(0, n)
  {
    Multiple(Pow2(n), 0);
  }

  lemma BuddyApart(s: Pool, v: int, n: nat)
    requires Inv(s, {}, v) && FreeOf(s.page, {}, n, v) && FreeOf(s.page, {}, n, Buddy(v, n))
    ensures var lo := if Upper(v, n) then Buddy(v, n) else v;
            Apart(s.page, {}, n, lo) && (v == lo || v == lo + Pow2(n))
  {
    hide Pow2, Aligned, Upper;
    if Upper(v, n) {
      FirstHalf(v, n);
      Halves(v - Pow2(n), n);
    }
  }

  /** With no buddy left to merge the invariant holds without exception. */
  lemma MergedUp(s: Pool, v: int, n: nat)
    requires Inv(s, {}, v) && FreeOf(s.page, {}, n, v) && (n + 1 < s.k ==> !FreeOf(s.page, {}, n, Buddy(v, n)))
    ensures Inv(s, {}, -1)
  {
    hide Pow2, Aligned, Upper, Lists, Tiles;
    forall o: nat, x | o + 1 < s.k && Apart(s.page, {}, o, x) ensures false {
      if x + Pow2(o) == v {
        Halves(x, o);
        SecondHalf(x, o);
      }
    }
  }

  /** Between live types a block can change its type freely. */
  lemma RetypeKeeps(s: Pool, x: int, ty: PageType)
    requires Inv(s, {}, -1) && 0 <= x < |s.page| && Live(s.page[x].ty) && Live(ty)
    ensures Inv(Take(s, x, ty), {}, -1) && Unused(Take(s, x, ty), {}) == Unused(s, {})
  {
    hide Aligned, Upper, Pow2, ListOf;
    var page' := Take(s, x, ty).page;
    TakeTiles(s.k, s.page, s.own, x, ty);
    forall y ensures FreeHead(page', {}, y) <==> FreeHead(s.page, {}, y) {}
    forall o: nat, y ensures FreeOf(page', {}, o, y) <==> FreeOf(s.page, {}, o, y) {}
    forall o | 0 <= o < s.k ensures ListOf(page', {}, o, s.free[o]) {
      ListSame(s.page, {}, page', {}, o, s.free[o]);
    }
    CanonicalLess(s.k, s.page, {}, page', {}, -1);
  }

  /** No block is the second block of two allocations. */
  lemma NotTwoTails(s: Pool, p: int)
    requires Inv(s, {}, -1) && Paired(s.page) && 0 <= p < |s.page| && s.page[p].ty == Cont
    ensures !Tail(Take(s, p, Allocated).page, p + Pow2(s.page[p].ord))
    ensures Paired(Take(s, p, Allocated).page)
  {
    hide Pow2, Aligned, Upper, Lists, Tiles, Canonical;
    var page', n := Take(s, p, Allocated).page, s.page[p].ord;
    Halves(p, n);
    SecondHalf(p, n);
    forall x | 0 <= x < |page'| && page'[x].ty == Cont ensures x + Pow2(page'[x].ord) != p + Pow2(n) {
      var m := s.page[x].ord;
      Halves(x, m);
      SecondHalf(x, m);
      if x + Pow2(m) == p + Pow2(n) {
        TzUnique(p + Pow2(n), m, n);
      }
    }
  }

  lemma NotTail(page: seq<Page>, page': seq<Page>, exc: set<int>, p: int)
    requires !Tail(page, p) && SameLive(page, page', exc)
    requires forall x :: x in exc && 0 <= x < |page'| ==> page'[x].ty != Cont
    ensures !Tail(page', p)
  {
    hide Pow2;
    forall x | 0 <= x < |page'| && page'[x].ty == Cont ensures x + Pow2(page'[x].ord) != p {
      assert page'[x] == page[x];
    }
  }

  lemma TailAllocated(page: seq<Page>, p: int)
    requires Paired(page) && 0 <= p < |page| && Tail(page, p)
    ensures page[p].ty == Allocated
  {
  }

  /** A block that goes leaves pairs alone exactly if it was not the second block of one. */
  lemma PairedLess(page: seq<Page>, page': seq<Page>, p: int)
    requires Paired(page) && SameLive(page, page', {p}) && 0 <= p < |page| && !Live(page'[p].ty)
    ensures Paired(page') <==> !Tail(page, p)
  {
    hide Pow2, Upper;
    if Tail(page, p) {
      var x :| 0 <= x < |page| && page[x].ty == Cont && x + Pow2(page[x].ord) == p;
      assert PairOk(page, x) && page'[x] == page[x] && !PairOk(page', x);
      return;
    }
    forall x | 0 <= x < |page'| && page'[x].ty == Cont ensures PairOk(page', x) {
      assert page'[x] == page[x] && PairOk(page, x);
      var y := x + Pow2(page[x].ord);
      assert y != p;
      assert page'[y] == page[y];
    }
  }

  lemma PutAs(l: seq<int>, x: int, o: nat)
    ensures Put(l, x, o) == if Upper(x, o) then l + [x] else [x] + l
  {
  }

  // ---------------------------------------------------------------- counting

  ghost function Total(free: seq<seq<int>>, i: nat): nat
    requires i <= |free|
  {
    if i == 0 then 0 else Total(free, i - 1) + |free[i - 1]| * Pow2(i - 1)
  }

  ghost function Below(page: seq<Page>, own: seq<int>, i: nat): set<int> {
    set j | 0 <= j < |own| && FreeHead(page, {}, own[j]) && page[own[j]].ord < i
  }

  ghost function Covered(own: seq<int>, l: seq<int>): set<int> {
    set j | 0 <= j < |own| && own[j] in l
  }

  lemma {:induction false} CountList(s: Pool, o: nat, l: seq<int>)
    requires Orders(s.k, s.page) && Tiles(s.page, s.own) && Ranked(l, o)
    requires forall i :: 0 <= i < |l| ==> FreeOf(s.page, {}, o, l[i])
    ensures |Covered(s.own, l)| == |l| * Pow2(o)
  {
    hide Pow2, Upper, Aligned, Covered, Run, Orders, Tiles;
    if l == [] {
      CoverNone(s.own);
      assert Covered(s.own, l) == {};
    } else {
      var n := |l| - 1;
      var x := l[n];
      CountList(s, o, l[..n]);
      BlockCover(s, x);
      RunIs(x, Pow2(o));
      forall i | 0 <= i < n ensures l[i] != x {}
      CoverStep(s.own, l, Run(x, Pow2(o)));
      assert (n + 1) * Pow2(o) == n * Pow2(o) + Pow2(o);
    }
  }

  lemma CoverNone(own: seq<int>)
    ensures Covered(own, []) == {}
  {
  }

  lemma CoverStep(own: seq<int>, l: seq<int>, r: set<int>)
    requires l != [] && l[|l| - 1] !in l[..|l| - 1]
    requires forall j :: j in r <==> 0 <= j < |own| && own[j] == l[|l| - 1]
    ensures |Covered(own, l)| == |Covered(own, l[..|l| - 1])| + |r|
  {
    var x, l' := l[|l| - 1], l[..|l| - 1];
    assert l == l' + [x];
    assert Covered(own, l) == Covered(own, l') + r;
    assert Covered(own, l') !! r;
  }

  lemma BlockCover(s: Pool, x: int)
    requires Orders(s.k, s.page) && Tiles(s.page, s.own) && Head(s.page, x)
    ensures forall j :: j in Run(x, Pow2(s.page[x].ord)) <==> 0 <= j < |s.own| && s.own[j] == x
  {
    hide Pow2, Aligned, Run;
    BlockEnds(s.k, s.page, x);
    RunIs(x, Pow2(s.page[x].ord));
    forall j ensures (0 <= j < |s.own| && s.own[j] == x) <==> j in Run(x, Pow2(s.page[x].ord)) {
      assert 0 <= j < |s.own| ==> In(s.page, s.own[j], j);
      assert In(s.page, x, j) ==> s.own[j] == x;
    }
  }

  lemma {:induction false} CountBelow(s: Pool, i: nat)
    requires Inv(s, {}, -1) && i <= s.k == |s.free|
    ensures |Below(s.page, s.own, i)| == Total(s.free, i)
  {
    hide Pow2, Upper, Aligned, Canonical, Orders, Tiles, Ranked;
    if i > 0 {
      var l, b := s.free[i - 1], Below(s.page, s.own, i - 1);
      CountBelow(s, i - 1);
      assert ListOf(s.page, {}, i - 1, l);
      forall j | 0 <= j < |l| ensures FreeOf(s.page, {}, i - 1, l[j]) {
        assert l[j] in l;
      }
      CountList(s, i - 1, l);
      assert Below(s.page, s.own, i) == b + Covered(s.own, l) by {
        forall j | 0 <= j < |s.own| ensures s.own[j] in l <==> FreeOf(s.page, {}, i - 1, s.own[j]) {}
      }
      assert b !! Covered(s.own, l);
    } else {
      assert Below(s.page, s.own, 0) == {};
    }
  }

  /** The sizes on the lists add up to the number of free pages. */
  lemma CountAll(s: Pool)
    requires Inv(s, {}, -1) && s.k == |s.free|
    ensures Total(s.free, s.k) == |Unused(s, {})|
  {
    CountBelow(s, s.k);
    assert Below(s.page, s.own, s.k) == Unused(s, {}) by {
      forall x | FreeHead(s.page, {}, x) ensures s.page[x].ord < s.k {}
    }
  }

  lemma FreshNotTail(page: seq<Page>, page': seq<Page>, p: int)
    requires Paired(page) && 0 <= p < |page| == |page'| && !Live(page[p].ty) && SameLive(page, page', Extent(page', p))
    requires page'[p].ty == Cont ==> p + Pow2(page'[p].ord) < |page'| && page'[p + Pow2(page'[p].ord)].ty == Allocated
    ensures !Tail(page', p)
  {
    hide Pow2, Upper;
    forall x | 0 <= x < |page'| && page'[x].ty == Cont ensures x + Pow2(page'[x].ord) != p {
      if x != p {
        assert page'[x] == page[x];
      }
    }
  }

  lemma FitsIs(k: nat, n: int, i: int, j: int)
    requires i >= 0 ==> Fits(k, n, i, j)
    ensures i >= 0 ==> i < k && -1 <= j < i
  {
  }

  // ---------------------------------------------------------------- allocation and release

  /** Whenever the same pages are free again, the same blocks are free again: releasing what
      was allocated restores every list up to its order. */
  lemma Restored(s: Pool, t: Pool, o: nat)
    requires Inv(s, {}, -1) && Inv(t, {}, -1) && s.k == t.k && Unused(s, {}) == Unused(t, {}) && o < s.k
    ensures |s.free| == |t.free| == s.k && multiset(s.free[o]) == multiset(t.free[o])
  {
    hide Pow2, Unused, Orders, Tiles, Canonical, Upper, Aligned;
    assert ListOf(s.page, {}, o, s.free[o]) && ListOf(t.page, {}, o, t.free[o]);
    forall x ensures FreeOf(s.page, {}, o, x) <==> FreeOf(t.page, {}, o, x) {
      if FreeOf(s.page, {}, o, x) {
        FreeBlocksUnique(s, t, x);
      }
      if FreeOf(t.page, {}, o, x) {
        FreeBlocksUnique(t, s, x);
      }
    }
    RankedOnce(s.free[o], o);
    RankedOnce(t.free[o], o);
  }

  lemma AllRestored(s: Pool, t: Pool)
    requires Inv(s, {}, -1) && Inv(t, {}, -1) && s.k == t.k && Unused(s, {}) == Unused(t, {})
    ensures |s.free| == |t.free| == s.k && forall o :: 0 <= o < s.k ==> multiset(t.free[o]) == multiset(s.free[o])
  {
    hide Inv, Unused;
    InHold(s, {}, -1);
    InHold(t, {}, -1);
    forall o | 0 <= o < s.k ensures multiset(t.free[o]) == multiset(s.free[o]) {
      Restored(s, t, o);
    }
  }

  lemma {:induction false} RankedOnce(l: seq<int>, o: nat)
    requires Ranked(l, o)
    ensures forall x :: multiset(l)[x] == if x in l then 1 else 0
  {
    hide Upper;
    if l != [] {
      var n := |l| - 1;
      RankedOnce(l[..n], o);
      assert l == l[..n] + [l[n]];
      assert l[n] !in l[..n];
    }
  }

  // ---------------------------------------------------------------- the start

  ghost function Freed(n: nat, keep: set<int>): set<int> {
    set x | 0 <= x < n && x !in keep
  }

  lemma InitInv(s: Pool)
    requires s.k > 0 && Aligned(|s.page|, s.k) && |s.own| == |s.page| && |s.free| == s.k
    requires forall x :: 0 <= x < |s.page| ==> s.page[x] == Page(Reserved, 0) && s.own[x] == x
    requires forall o :: 0 <= o < s.k ==> s.free[o] == []
    ensures Inv(s, {}, -1) && Unused(s, {}) == {}
  {
    forall x ensures Aligned(x, 0) {}
    forall o: nat, x ensures !FreeOf(s.page, {}, o, x) {}
    forall x, j | In(s.page, x, j) ensures x == j {}
  }

  lemma RunOne(x: int)
    ensures Run(x, Pow2(0)) == {x}
  {
  }

  // ---------------------------------------------------------------- what is held outside

  lemma SameLiveSelf(page: seq<Page>)
    ensures SameLive(page, page, {})
  {
  }

  lemma SameLiveChain(page: seq<Page>, page1: seq<Page>, page2: seq<Page>, exc: set<int>)
    requires SameLive(page, page1, {}) && SameLive(page1, page2, exc)
    ensures SameLive(page, page2, exc)
  {
  }

  lemma PairedSame(page: seq<Page>, page': seq<Page>)
    requires Paired(page) && SameLive(page, page', {})
    ensures Paired(page')
  {
    hide Upper, Pow2;
  }

  lemma WasFree(page: seq<Page>, page': seq<Page>, p: int, q: int)
    requires SameLive(page, page', {}) && 0 <= p < |page'| && 0 <= q < |page'| && page'[p].ty == Free
      && page'[q].ty == Free
    ensures |page| == |page'| && !Live(page[p].ty) && !Live(page[q].ty)
  {
  }

  lemma PairedNew(page: seq<Page>, page': seq<Page>, p: int, n: nat, m: nat)
    requires Paired(page) && 0 <= p && p + Pow2(n) < |page| && SameLive(page, page', {p, p + Pow2(n)}) && m < n
      && !Upper(p, n)
    requires !Live(page[p].ty) && !Live(page[p + Pow2(n)].ty)
    requires page'[p] == Page(Cont, n) && page'[p + Pow2(n)] == Page(Allocated, m)
    ensures Paired(page')
  {
    hide Pow2, Upper;
    forall x | 0 <= x < |page'| && page'[x].ty == Cont ensures PairOk(page', x) {
      if x != p {
        assert page'[x] == page[x] && PairOk(page, x);
        var y := x + Pow2(page[x].ord);
        assert page'[y] == page[y];
      }
    }
  }
}
