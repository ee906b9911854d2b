/** The allocator as its callers see it: `alloc` and `free` over pages, slabs and tiny
    containers. */
module Heap {
  import opened List
  import opened PageMath
  import opened PagePool
  import opened PageSizes
  import opened PageAllocator
  import opened Bitmap
  import opened SlabCache
  import opened HeapModel

  /** `h` is new, at `v`, of size `len`, and nothing else that is handed out has changed. */
  ghost predicate Handed(before: View, after: View, h: Handle, v: int, len: int) {
    Added(before, after, h) && Base(after, h) == v && Size(after, h) == len
  }

  /** `len` bytes come from tiny slots of class `c`. */
  ghost predicate ByTiny(len: int, c: nat) {
    c < 3 && len <= SlotSize(TinyKind, c) && forall o: nat :: o < c ==> SlotSize(TinyKind, o) < len
  }

  /** `len` bytes come from slab slots of class `c`. */
  ghost predicate BySmall(len: int, c: nat) {
    && c < 5 && len <= SlotSize(SmallKind, c) && (forall o: nat :: o < c ==> SlotSize(SmallKind, o) < len)
    && forall o: nat :: o < 3 ==> SlotSize(TinyKind, o) < len
  }

  /** There is nothing to give for `len` bytes: no slot of the size and no page to make one, or
      no run of pages of the size. */
  ghost predicate Exhausted(k: nat, u: set<int>, small: seq<seq<int>>, tiny: seq<seq<int>>, len: int) {
    if len <= SlotSize(SmallKind, 4) then
      && !Room(u, 0, 1)
      && (forall c: nat :: ByTiny(len, c) ==> Listless(tiny, c) && Listless(small, c + 2))
      && (forall c: nat :: BySmall(len, c) ==> Listless(small, c))
    else NoPages(k, u, (len + 4095) / 4096)
  }

  ghost predicate Listless(free: seq<seq<int>>, c: nat) {
    c < |free| ==> free[c] == []
  }

  ghost predicate NoPages(k: nat, u: set<int>, n: int) {
    TooBig(k, n) || exists i: nat, j: int :: Fits(k, n, i, j) && !RoomFor(u, i, j)
  }

  class ByteAllocator {
    const pages: Allocator
    var slab: map<int, Slab>
    var smallFree: seq<seq<int>>
    var tiny: map<int, Slab>
    var tinyFree: seq<seq<int>>

    /** The bytes of the memory that is handed out. */
    ghost var mem: seq<int>

    ghost function V(): View
      reads this, pages
    {
      View(pages.page, slab, tiny)
    }

    /** A slab is on the list of its size exactly when it is partly used, and likewise for
        tiny containers. */
    ghost predicate Valid()
      reads this, pages
    {
      && pages.Valid() && Layers(V())
      && CacheOk(SmallKind, slab, smallFree) && CacheOk(TinyKind, tiny, tinyFree)
      && |mem| == PAGE * |pages.page|
    }

    /** The empty size lists of `mm_init_global`. */
    constructor (pages: Allocator)
      requires pages.Valid() && forall p :: 0 <= p < |pages.page| ==> pages.page[p].ty != Small
      ensures Valid() && this.pages == pages && slab == map[] && tiny == map[]
    {
      this.pages := pages;
      slab, tiny := map[], map[];
      smallFree, tinyFree := seq(5, i => []), seq(3, i => []);
      mem := seq(PAGE * |pages.page|, i => 0);
    }

    /** `small_alloc`, when some slab of the size has a slot to spare. */
    method TakeSmallSlot(c: nat) returns (p: int, n: bv32, ghost i: nat)
      requires Valid() && c < Classes(SmallKind) && smallFree[c] != []
      modifies this`slab, this`smallFree
      ensures Valid() && i < 32 && n == One(i) && Added(old(V()), V(), SmallH(p, i)) && p in slab && slab[p].cls == c
    {
      hide Inv, Bits, Upto, LiveH, Base, Size, Paired, Tail, One, Or, Full, FindNextBit, Slots, SlotSize, Layers,
           Added, ListOk, Del, ItemOk;
      var full := Full(Slots(SmallKind, c));
      p := smallFree[c][0];
      assert smallFree[c][0] in smallFree[c];
      ghost var v := V();
      OnSlabList(SmallKind, slab, smallFree, c, p);
      i := SpareSlot(SmallKind, slab[p]);
      n := FindNextBit(slab[p].bm);
      ghost var slab' := slab[p := slab[p].(bm := Or(slab[p].bm, n))];
      ChangeOk(SmallKind, slab, smallFree, slab', p, c);
      FullIs(slab'[p].bm, Slots(SmallKind, c));
      SlabBit(v, p, i, slab'[p].bm);
      assert smallFree[c := smallFree[c]] == smallFree;
      slab := slab[p := slab[p].(bm := Or(slab[p].bm, n))];
      if slab[p].bm == full {
        smallFree := smallFree[c := Del(smallFree[c], p)];
      }
    }

    /** `small_alloc`, when a fresh page is needed. */
    method NewSmallPage(c: nat) returns (p: int, n: bv32)
      requires Valid() && c < Classes(SmallKind)
      modifies this`slab, this`smallFree, pages
      ensures Valid()
      ensures p == -1 ==> V() == old(V()) && smallFree == old(smallFree)
      ensures p == -1 <==> !Room(old(pages.Available()), 0, 1)
      ensures p != -1 ==> n == One(0) && Added(old(V()), V(), SmallH(p, 0)) && p in slab && slab[p].cls == c
    {
      hide Inv, Bits, Upto, LiveH, Base, Size, Tail, One, Slots, SlotSize, Layers, Added, ListOk, Del, Unused, ItemOk;
      n := 1;
      ghost var v := V();
      SomeOrder(pages.S());
      p := pages.Alloc(0);
      if p == -1 {
        return;
      }
      FreshNotTail(v.page, pages.page, p);
      pages.Retype(p, Small);
      FirstSlot(c);
      NewSlab(v, p, c, n, pages.page);
      ghost var slab' := slab[p := Slab(c, n)];
      ChangeOk(SmallKind, slab, smallFree, slab', p, c);
      slab := slab[p := Slab(c, n)];
      smallFree := smallFree[c := [p] + smallFree[c]];
    }

    /** `small_alloc`; -1 stands for the panic for want of a page. */
    method SmallAlloc(c: nat) returns (v: int, ghost h: Handle)
      requires Valid() && c < Classes(SmallKind)
      modifies this`slab, this`smallFree, pages
      ensures Valid()
      ensures v == -1 ==> V() == old(V()) && smallFree == old(smallFree)
      ensures v == -1 <==> Listless(old(smallFree), c) && !Room(old(pages.Available()), 0, 1)
      ensures !Listless(old(smallFree), c) ==> pages.S() == old(pages.S())
      ensures v != -1 ==>
        Handed(old(V()), V(), h, v, SlotSize(SmallKind, c)) && h.SmallH? && h.p in slab && slab[h.p].cls == c
    {
      hide Inv, Layers, Bits, Upto, LiveH, Paired, Tail, One, Slots, SlotSize, Added;
      var p, n;
      ghost var k := 0;
      assert CacheOk(SmallKind, slab, smallFree);
      if smallFree[c] != [] {
        p, n, k := TakeSmallSlot(c);
      } else {
        p, n := NewSmallPage(c);
        if p == -1 {
          return -1, PageH(0);
        }
      }
      h := SmallH(p, k);
      OneBits(k);
      NoBits(n);
      var i := BitToIndex(n);
      SlotNat(V(), p, k);
      v := PAGE * p + SlotSize(SmallKind, c) * i;
    }

    /** `small_free` of slot `i`, at `pageOffset` in its page. */
    method SmallFree(p: int, pageOffset: int, ghost k: nat) returns (doubleFree: bool)
      requires Valid() && LiveH(V(), SmallH(p, k)) && pageOffset == Offset(SmallKind, slab[p].cls, k)
      modifies this`slab, this`smallFree, pages
      ensures Valid() && Added(V(), old(V()), SmallH(p, k)) && !doubleFree
    {
      hide Inv, Bits, Upto, Base, Size, Tail, One, Slots, SlotSize, Layers, Added, ListOk, Del, Unused, ItemOk, Xor,
           Full, Offset, Paired, HeaderSlots, And;
      ghost var v, free0 := V(), smallFree;
      PageLevel(pages.S(), v, SmallH(p, k));
      InBlock(v, SmallH(p, k));
      OffsetBack(SmallKind, slab[p].cls, k);
      var c := slab[p].cls;
      var full := Full(Slots(SmallKind, c));
      var i := pageOffset / SlotSize(SmallKind, c);
      assert i == k;
      var n := One(i);
      SlabSlot(slab, smallFree, p, i);
      var bm := slab[p].bm;
      FullIs(bm, Slots(SmallKind, c));
      if bm == full {
        smallFree := smallFree[c := [p] + smallFree[c]];
      }
      var newBm := Xor(bm, n);
      NoBits(newBm);
      BitIn(newBm, i);
      doubleFree := And(newBm, n) != 0;
      if newBm != 0 {
        SlabClear(v, p, i, newBm);
        ChangeOk(SmallKind, slab, free0, slab[p := slab[p].(bm := newBm)], p, c);
        assert free0[c := free0[c]] == free0;
        slab := slab[p := slab[p].(bm := newBm)];
      } else {
        ChangeOk(SmallKind, slab, free0, slab - {p}, p, c);
        smallFree := smallFree[c := Del(smallFree[c], p)];
        slab := slab - {p};
        ReleaseSlab(p);
        DropSlab(v, p, i, pages.page);
      }
    }

    /** The end of `small_free`: the page of an empty slab goes back. */
    method ReleaseSlab(p: int)
      requires pages.Valid() && 0 <= p < |pages.page| && pages.page[p].ty == Small
      modifies pages
      ensures pages.Valid() && SameLive(old(pages.page), pages.page, {p}) && !Live(pages.page[p].ty)
    {
      hide Inv, Tail, Unused, Pow2;
      SlabNotTail(pages.page, p);
      ghost var page0 := pages.page;
      pages.Retype(p, Allocated);
      TailSame(page0, pages.page, p);
      var r := pages.FreeSub(p);
    }

    /** `tiny_alloc`, when some container of the size has a slot to spare. */
    method TakeTinySlot(c: nat) returns (a: int, n: bv32, ghost i: nat)
      requires Valid() && c < Classes(TinyKind) && tinyFree[c] != []
      modifies this`tiny, this`tinyFree
      ensures Valid() && i < 32 && n == One(i) && Added(old(V()), V(), TinyH(a, i)) && a in tiny && tiny[a].cls == c
    {
      hide Inv, Bits, Upto, LiveH, Base, Size, Paired, Tail, One, Or, FindNextBit, SlotSize, Layers, Added, ListOk,
           Del, ItemOk;
      a := tinyFree[c][0];
      assert tinyFree[c][0] in tinyFree[c];
      ghost var v := V();
      OnSlabList(TinyKind, tiny, tinyFree, c, a);
      i := SpareSlot(TinyKind, tiny[a]);
      n := FindNextBit(tiny[a].bm);
      ghost var tiny' := tiny[a := tiny[a].(bm := Or(tiny[a].bm, n))];
      ChangeOk(TinyKind, tiny, tinyFree, tiny', a, c);
      FullIs(tiny'[a].bm, 32);
      FullWord();
      TinyBit(v, a, i, tiny'[a].bm);
      assert tinyFree[c := tinyFree[c]] == tinyFree;
      tiny := tiny[a := tiny[a].(bm := Or(tiny[a].bm, n))];
      if tiny[a].bm == 0xFFFF_FFFF {
        tinyFree := tinyFree[c := Del(tinyFree[c], a)];
      }
    }

    /** `tiny_alloc`, when a fresh container is needed. */
    method NewContainer(c: nat) returns (a: int, n: bv32, ghost i: nat)
      requires Valid() && c < Classes(TinyKind)
      modifies this, pages
      ensures Valid() && mem == old(mem)
      ensures a == -1 ==> V() == old(V())
      ensures a == -1 <==> Listless(old(smallFree), c + 2) && !Room(old(pages.Available()), 0, 1)
      ensures a != -1 ==> i < 32 && n == One(i) && Added(old(V()), V(), TinyH(a, i)) && a in tiny && tiny[a].cls == c
    {
      hide Inv, Bits, Upto, LiveH, Size, Paired, Tail, One, Or, FindNextBit, Layers, Added, Swapped, ListOk, Del,
           ItemOk, HeaderSlots, Offset, Room;
      n, i := 0, 0;
      var plen := SlotSize(TinyKind, c) * 32;
      var small := GetSmallAllocsize(plen);
      ContainerClass(c, small);
      ghost var v0 := V();
      ghost var h;
      a, h := SmallAlloc(small);
      if a == -1 {
        return;
      }
      ghost var v1 := V();
      n := FindNextBit(Header(TinyKind, c));
      i := FirstTinySlot(c);
      var bm := Or(Header(TinyKind, c), n);
      HandedLive(v0, v1, h);
      NewTiny(v1, h.p, h.i, c, i, bm);
      AddSwap(v0, v1, v1.(tiny := v1.tiny[a := Slab(c, bm)]), h, TinyH(a, i));
      ChangeOk(TinyKind, tiny, tinyFree, tiny[a := Slab(c, bm)], a, c);
      tiny := tiny[a := Slab(c, bm)];
      tinyFree := tinyFree[c := [a] + tinyFree[c]];
    }

    /** `tiny_alloc`; -1 stands for the panic for want of a page. */
    method TinyAlloc(c: nat) returns (v: int, ghost h: Handle)
      requires Valid() && c < Classes(TinyKind)
      modifies this, pages
      ensures Valid()
      ensures v == -1 ==> V() == old(V())
      ensures v == -1 <==>
        Listless(old(tinyFree), c) && Listless(old(smallFree), c + 2) && !Room(old(pages.Available()), 0, 1)
      ensures !Listless(old(tinyFree), c) ==> pages.S() == old(pages.S())
      ensures v != -1 ==> Handed(old(V()), V(), h, v, SlotSize(TinyKind, c)) && h.TinyH?
      ensures HeaderOnly(old(V()), V(), old(mem), mem)
    {
      hide Inv, Layers, Bits, Upto, LiveH, Paired, Tail, One, Slots, SlotSize, Added, Room;
      var a, n;
      ghost var k;
      assert CacheOk(TinyKind, tiny, tinyFree);
      if tinyFree[c] != [] {
        a, n, k := TakeTinySlot(c);
      } else {
        a, n, k := NewContainer(c);
        if a == -1 {
          assert HeaderOnly(old(V()), V(), old(mem), mem);
          return -1, PageH(0);
        }
      }
      h := TinyH(a, k);
      OneBits(k);
      NoBits(n);
      var i := BitToIndex(n);
      TinyNat(V(), a, k);
      v := a + SlotSize(TinyKind, c) * i;
      StoreHeaders(a, old(V()), old(tinyFree), c);
    }

    /** A store to a field of the header at `a`. */
    ghost method StoreHeader(a: int)
      modifies this`mem
      ensures OnlyAt(old(mem), mem, [a])
    {
      assert OnlyAt(mem, mem, [a]);
      var m :| OnlyAt(mem, m, [a]);
      mem := m;
    }

    /** The stores of `tiny_alloc` and `tiny_free`: to the header of the container at `a`, and, to
        put it on a list or take it off, to headers of containers on that list before or after. */
    ghost method StoreHeaders(a: int, before: View, free0: seq<seq<int>>, c: nat)
      requires Valid() && c < Classes(TinyKind) && CacheOk(TinyKind, before.tiny, free0)
        && (a in before.tiny || a in tiny)
      modifies this`mem
      ensures HeaderOnly(before, V(), old(mem), mem) && |mem| == old(|mem|)
    {
      hide Inv, Layers, ListOk, ItemOk, Partly;
      var cs := [a] + free0[c] + tinyFree[c];
      forall i | 0 <= i < |cs| ensures cs[i] in before.tiny || cs[i] in tiny {
        OnLists(before.tiny, free0, tiny, tinyFree, c, a, i);
      }
      var i := 0;
      while i < |cs|
        invariant 0 <= i <= |cs| && OnlyAt(old(mem), mem, cs[..i])
      {
        StoreHeader(cs[i]);
        assert cs[..i + 1] == cs[..i] + [cs[i]];
        i := i + 1;
      }
      OnlyHeaders(before, V(), old(mem), mem, cs);
    }

    /** `tiny_free` of slot `k` of the container at `a`. */
    method TinyFree(p: int, a: int, blockOffset: int, ghost k: nat) returns (doubleFree: bool)
      requires Valid() && LiveH(V(), TinyH(a, k)) && blockOffset == Offset(TinyKind, tiny[a].cls, k) && p == a / PAGE
      modifies this, pages
      ensures Valid() && Added(V(), old(V()), TinyH(a, k)) && !doubleFree
      ensures HeaderOnly(old(V()), V(), old(mem), mem)
    {
      hide Inv, Bits, Upto, Base, Size, Tail, One, SlotSize, Layers, Added, Swapped, ListOk, Del, Unused, ItemOk, Xor,
           Full, Offset, Paired, HeaderSlots, And;
      ghost var v, free0 := V(), tinyFree;
      OffsetBack(TinyKind, tiny[a].cls, k);
      TinySlot(tiny, tinyFree, a, k);
      var c := tiny[a].cls;
      var i := blockOffset / SlotSize(TinyKind, c);
      assert i == k;
      var n := One(i);
      var bm := tiny[a].bm;
      FullIs(bm, 32);
      FullWord();
      if bm == 0xFFFF_FFFF {
        tinyFree := tinyFree[c := [a] + tinyFree[c]];
      }
      var newBm := Xor(bm, n);
      BitIn(newBm, i);
      doubleFree := And(newBm, n) != 0;
      if newBm != Header(TinyKind, c) {
        TinyClear(v, a, i, newBm);
        ChangeOk(TinyKind, tiny, free0, tiny[a := tiny[a].(bm := newBm)], a, c);
        assert free0[c := free0[c]] == free0;
        tiny := tiny[a := tiny[a].(bm := newBm)];
      } else {
        ghost var q, b := DropTiny(v, a, i);
        ChangeOk(TinyKind, tiny, free0, tiny - {a}, a, c);
        tinyFree := tinyFree[c := Del(tinyFree[c], a)];
        tiny := tiny - {a};
        SwappedLive(V(), v, SmallH(q, b), TinyH(a, i));
        ghost var v1 := V();
        doubleFree := SmallFree(p, a % PAGE, b);
        AddSwap(V(), v1, v, SmallH(q, b), TinyH(a, i));
      }
      StoreHeaders(a, v, free0, c);
    }

    /** `alloc`: the least size that the layers offer for `len` bytes.  -1 stands for the
        panics. */
    method Alloc(len: nat) returns (v: int, ghost h: Handle)
      requires Valid()
      modifies this, pages
      ensures Valid()
      ensures v == -1 ==> V() == old(V())
      ensures v == -1 <==> old(Exhausted(pages.k, pages.Available(), smallFree, tinyFree, len))
      ensures v != -1 ==> Handed(old(V()), V(), h, v, Size(V(), h)) && Least(pages.k, len, Size(V(), h))
      ensures forall g :: LiveH(old(V()), g) ==> Keeps(old(V()), old(mem), mem, g)
    {
      hide Inv, Layers, LiveH, Base, Paired, Tail, SlotSize, Added, Room, CacheOk, Unused, Least, HeaderOnly, Keeps,
           Exhausted, Listless;
      ghost var s, view := pages.S(), V();
      var small := GetSmallAllocsize(len);
      if small < 0 {
        LargeServes(pages.k, pages.Available(), smallFree, tinyFree, len);
        v, h := PagesAlloc(len);
      } else {
        var tinyClass := -1;
        if small == 0 {
          tinyClass := GetTinyAllocsize(len);
        }
        SlabServes(pages.k, pages.Available(), smallFree, tinyFree, len, small, tinyClass);
        if tinyClass < 0 {
          LeastSmall(pages.k, len, small);
          v, h := SmallAlloc(small);
        } else {
          LeastTiny(pages.k, len, tinyClass);
          v, h := TinyAlloc(tinyClass);
        }
      }
      assert mem == old(mem) || HeaderOnly(view, V(), old(mem), mem);
      if mem == old(mem) {
        SameMemory(view, V(), mem);
      }
      forall g | LiveH(view, g) ensures Keeps(view, old(mem), mem, g) {
        if v != -1 {
          StaysPut(view, V(), h, g);
        }
        Kept(s, view, pages.S(), V(), old(mem), mem, g);
      }
    }

    /** The page case of `alloc`. */
    method PagesAlloc(len: nat) returns (v: int, ghost h: Handle)
      requires Valid() && forall c: nat :: c < Classes(SmallKind) ==> SlotSize(SmallKind, c) < len
      modifies pages
      ensures Valid()
      ensures v == -1 ==> V() == old(V())
      ensures v == -1 <==> NoPages(pages.k, old(pages.Available()), (len + 4095) / 4096)
      ensures v != -1 ==> Handed(old(V()), V(), h, v, Size(V(), h)) && Least(pages.k, len, Size(V(), h))
    {
      hide Inv, Layers, LiveH, Paired, Tail, SlotSize, Added, RoomFor, CacheOk, Unused, Least, Run, Fits, TooBig,
           SizeOf, Pow2, SameLive, NoPages;
      ghost var view := V();
      var p, i, j := pages.AllocPages((len + 4095) / 4096);
      PagesServe(pages.k, old(pages.Available()), len, i, j);
      h := PageH(p);
      if p == -1 {
        return -1, h;
      }
      PageAdded(view, pages.page, p);
      LeastPages(pages.k, len, i, j);
      v := PAGE * p;
    }

    /** `free`, which finds the layer from the address alone. */
    method Free(v: int, ghost h: Handle) returns (ok: bool)
      requires Valid() && LiveH(V(), h) && v == Base(V(), h)
      modifies this, pages
      ensures Valid() && Added(V(), old(V()), h) && ok
      ensures forall g :: LiveH(old(V()), g) && g != h ==> Keeps(old(V()), old(mem), mem, g)
    {
      hide Inv, Layers, Bits, Upto, Base, Size, Paired, Tail, SlotSize, Added, Unused, CacheOk, Offset, HeaderSlots,
           Keeps, HeaderOnly;
      ghost var s, view := pages.S(), V();
      Route(s, view, h);
      var p := v / PAGE;
      if pages.page[p].ty == Small {
        var pageOffset := v % PAGE;
        var blockOffset := pageOffset % SlotSize(SmallKind, slab[p].cls);
        var bad;
        if blockOffset != 0 {
          bad := TinyFree(p, v - blockOffset, blockOffset, h.i);
        } else {
          bad := SmallFree(p, pageOffset, h.i);
        }
        ok := !bad;
      } else {
        ok := PageFree(p);
      }
      assert mem == old(mem) || HeaderOnly(view, V(), old(mem), mem);
      if mem == old(mem) {
        SameMemory(view, V(), mem);
      }
      forall g | LiveH(view, g) && g != h ensures Keeps(view, old(mem), mem, g) {
        StaysPut(V(), view, h, g);
        Kept(s, view, pages.S(), V(), old(mem), mem, g);
      }
    }

    /** `mm_page_free` */
    method PageFree(p: int) returns (ok: bool)
      requires Valid() && LiveH(V(), PageH(p))
      modifies pages
      ensures Valid() && Added(V(), old(V()), PageH(p)) && ok
    {
      hide Inv, Layers, Tail, Added, Unused, CacheOk, Run, Pow2, Upper;
      ghost var view := V();
      var r := pages.FreeSub(p);
      PageRemoved(view, pages.page, p);
      ok := r == Done;
    }

    /** `get_alloc_len` */
    method GetAllocLen(v: int, ghost h: Handle) returns (len: int)
      requires Valid() && LiveH(V(), h) && v == Base(V(), h)
      ensures len == Size(V(), h)
    {
      hide Inv, Layers, Bits, Upto, Paired, Tail, SlotSize, CacheOk, HeaderSlots, Pow2;
      Route(pages.S(), V(), h);
      var p := v / PAGE;
      if pages.page[p].ty == Small {
        var blockOffset := v % PAGE % SlotSize(SmallKind, slab[p].cls);
        if blockOffset != 0 {
          len := SlotSize(TinyKind, tiny[v - blockOffset].cls);
        } else {
          len := SlotSize(SmallKind, slab[p].cls);
        }
      } else {
        len := PAGE * Pow2(pages.page[p].ord);
        if pages.page[p].ty == Cont {
          TailInRange(pages.page, p);
          var q := p + Pow2(pages.page[p].ord);
          len := len + PAGE * Pow2(pages.page[q].ord);
        }
      }
    }

    /** `get_actual_allocate_size`, asked for no more than some size that is handed out. */
    method GetActualAllocateSize(len: nat) returns (z: int)
      requires exists y :: Offered(pages.k, y) && len <= y
      ensures Least(pages.k, len, z)
    {
      hide Least, Pow2, SizeOf, Fits;
      var small := GetSmallAllocsize(len);
      if small < 0 {
        var i, j := GetAllocPagesSize(pages.k, (len + 4095) / 4096);
        SomeSize(pages.k, len);
        FitsIs(pages.k, (len + 4095) / 4096, i, j);
        LeastPages(pages.k, len, i, j);
        SizeIs(i, j);
        z := PAGE * Pow2(i) + if j >= 0 then PAGE * Pow2(j) else 0;
      } else {
        var tinyClass := -1;
        if small == 0 {
          tinyClass := GetTinyAllocsize(len);
        }
        if tinyClass < 0 {
          LeastSmall(pages.k, len, small);
          z := SlotSize(SmallKind, small);
        } else {
          LeastTiny(pages.k, len, tinyClass);
          z := SlotSize(TinyKind, tinyClass);
        }
      }
    }

    /** The moving part of `realloc`: `n` bytes of `h` go to a new block. */
    method MoveBlock(virt: int, len: nat, n: nat, ghost h: Handle) returns (r: int, ghost k: Handle)
      requires Valid() && LiveH(V(), h) && virt == Base(V(), h) && n <= Size(V(), h) && n <= len
      modifies this, pages
      ensures Valid()
      ensures r == -1 ==> V() == old(V())
      ensures r == -1 <==> old(Exhausted(pages.k, pages.Available(), smallFree, tinyFree, len))
      ensures r == -1 ==> forall g :: LiveH(old(V()), g) ==> Keeps(old(V()), old(mem), mem, g)
      ensures r != -1 ==> Moved(old(V()), V(), h, k) && Base(V(), k) == r && Least(pages.k, len, Size(V(), k))
      ensures r != -1 ==> SameBytes(old(mem), virt, mem, r, n) && k != h
      ensures forall g :: LiveH(old(V()), g) && g != h ==> Keeps(old(V()), old(mem), mem, g)
    {
      hide Inv, Layers, LiveH, Base, Size, Added, Least, Keeps, CacheOk, Paired, SameBytes, Moved, Exhausted;
      ghost var v0, m0 := V(), mem;
      r, k := Alloc(len);
      if r == -1 {
        return;
      }
      ghost var s1, v1, m1 := pages.S(), V(), mem;
      assert len <= Size(v1, k) by { LeastCovers(pages.k, len, Size(v1, k)); }
      HandedLive(v0, v1, k);
      StaysPut(v0, v1, k, h);
      Inside(s1, v1, h);
      Inside(s1, v1, k);
      mem := Copied(mem, r, virt, n);
      ghost var m2 := mem;
      var ok := Free(virt, h);
      NotSame(v0, v1, k, h);
      MovedOn(v0, v1, V(), k, h);
      Contents(v0, v1, m0, m1, m2, mem, h, k, virt, r, n);
      forall g | LiveH(v0, g) && g != h ensures Keeps(v0, m0, mem, g) {
        StaysPut(v0, v1, k, g);
        NotSame(v0, v1, k, g);
        RangesApart(s1, v1, g, k);
        KeepsCopy(v0, v1, m0, m1, mem, g, k, virt, r, n);
      }
    }

    /** `realloc`, with -1 for the null pointer and for the panics of `alloc`.  What it
        returns for a live block has room for `len` bytes and starts with what the block
        held, as far as both go; everything else keeps its place and its contents. */
    method Realloc(virt: int, len: nat, ghost h: Handle) returns (r: int, ghost k: Handle)
      requires Valid() && (virt != -1 ==> LiveH(V(), h) && virt == Base(V(), h))
      modifies this, pages
      ensures Valid()
      ensures virt == -1 && len == 0 ==> r == -1
      ensures r == -1 && (virt == -1 || len > 0) ==> V() == old(V())
      ensures len > 0 ==>
        (r == -1 <==>
           && old(Exhausted(pages.k, pages.Available(), smallFree, tinyFree, len))
           && (virt != -1 ==> !Least(pages.k, len, old(Size(V(), h)))))
      ensures r != -1 ==> Least(pages.k, len, Size(V(), k))
      ensures virt != -1 && r != -1 ==>
        if Least(pages.k, len, old(Size(V(), h))) then k == h && V() == old(V()) && mem == old(mem) else k != h
      ensures r == -1 && virt != -1 && len > 0 ==> Keeps(old(V()), old(mem), mem, h)
      ensures virt == -1 && r != -1 ==> Handed(old(V()), V(), k, r, Size(V(), k)) && len <= Size(V(), k)
      ensures virt != -1 && len == 0 ==> r == -1 && Added(V(), old(V()), h)
      ensures virt != -1 && r != -1 ==> Moved(old(V()), V(), h, k) && Base(V(), k) == r && len <= Size(V(), k)
      ensures virt != -1 && r != -1 ==> SameBytes(old(mem), virt, mem, r, Min(Size(old(V()), h), len))
      ensures forall g :: LiveH(old(V()), g) && (virt == -1 || g != h) ==> Keeps(old(V()), old(mem), mem, g)
    {
      hide Inv, Layers, LiveH, Base, Size, Added, Least, CacheOk, Paired, Exhausted;
      k := h;
      if virt == -1 && len == 0 {
        return -1, k;
      }
      if virt == -1 {
        r, k := Alloc(len);
        if r != -1 {
          LeastCovers(pages.k, len, Size(V(), k));
        }
        return;
      }
      if len == 0 {
        var ok := Free(virt, h);
        return -1, k;
      }
      Inside(pages.S(), V(), h);
      OfferedSize(pages.S(), V(), h);
      var oldlen := GetAllocLen(virt, h);
      if oldlen == len {
        LeastSelf(pages.k, len);
        return virt, k;
      }
      LeastOnly(pages.k, len, oldlen);
      if oldlen < len {
        r, k := MoveBlock(virt, len, oldlen, h);
      } else {
        var newActualSize := GetActualAllocateSize(len);
        LeastCovers(pages.k, len, newActualSize);
        LeastBelow(pages.k, len, newActualSize, oldlen);
        LeastOnce(pages.k, len, newActualSize, oldlen);
        assert oldlen >= newActualSize;
        if oldlen == newActualSize {
          return virt, k;
        }
        r, k := MoveBlock(virt, len, len, h);
      }
      if r != -1 {
        LeastCovers(pages.k, len, Size(V(), k));
      }
    }
  }

  lemma OnSlabList(kind: Kind, items: map<int, Slab>, free: seq<seq<int>>, c: nat, a: int)
    requires CacheOk(kind, items, free) && c < Classes(kind) && a in free[c]
    ensures Partly(kind, items, c, a) && a in items && ItemOk(kind, items[a])
  {
    assert ListOk(kind, items, c, free[c]);
  }

  lemma SomeOrder(s: Pool)
    requires Inv(s, {}, -1)
    ensures 0 < s.k && Pow2(0) == 1
  {
  }

  lemma FirstSlot(c: nat)
    requires c < Classes(SmallKind)
    ensures One(0) == 1 && Bits(1) == {0} && ItemOk(SmallKind, Slab(c, 1)) && Bits(1) != Upto(Slots(SmallKind, c))
  {
    hide Bits;
    assert One(0) == 1;
    OneBits(0);
    UptoIs(Slots(SmallKind, c));
    assert 1 in Upto(Slots(SmallKind, c));
  }

  lemma SlotNat(v: View, p: int, i: nat)
    requires Layers(v) && p in v.slab
    ensures 0 <= p
    ensures Base(v, SmallH(p, i)) == PAGE * p + SlotSize(SmallKind, v.slab[p].cls) * i
    ensures Size(v, SmallH(p, i)) == SlotSize(SmallKind, v.slab[p].cls)
  {
  }

  lemma OffsetBack(kind: Kind, c: nat, i: nat)
    ensures Offset(kind, c, i) / SlotSize(kind, c) == i && Offset(kind, c, i) % SlotSize(kind, c) == 0
  {
    Multiple(SlotSize(kind, c), i);
  }

  /** A slot of a slab in use: what giving it back leaves. */
  lemma SlabSlot(items: map<int, Slab>, free: seq<seq<int>>, p: int, i: nat)
    requires CacheOk(SmallKind, items, free) && p in items && i in Bits(items[p].bm) && i < 32
    ensures var bm := Xor(items[p].bm, One(i));
            && ItemOk(SmallKind, items[p]) && items[p].cls < Classes(SmallKind) && |free| == Classes(SmallKind)
            && Bits(bm) == Bits(items[p].bm) - {i} && Bits(bm) != Upto(Slots(SmallKind, items[p].cls))
            && (Bits(bm) != {} ==> ItemOk(SmallKind, items[p].(bm := bm)))
            && (Bits(bm) == {} ==>
              Bits(items[p].bm) == {i} && Bits(items[p].bm) != Upto(Slots(SmallKind, items[p].cls)))
  {
    hide Bits, One, Xor, ListOk, Upto;
    assert ItemOk(SmallKind, items[p]);
    NoHeader(items[p].cls);
    GivenSlot(SmallKind, items[p], i);
    UptoIs(Slots(SmallKind, items[p].cls));
    if Bits(items[p].bm) == {i} {
      assert {0, 1} <= Upto(Slots(SmallKind, items[p].cls));
    }
  }

  lemma NoHeader(c: nat)
    ensures HeaderSlots(SmallKind, c) == {}
  {
  }

  lemma BitIn(b: bv32, i: nat)
    requires i < 32
    ensures i in Bits(b) <==> And(b, One(i)) != 0
  {
    hide And, One;
  }

  /** `get_small_allocsize` */
  method GetSmallAllocsize(len: int) returns (r: int)
    ensures -1 <= r < Classes(SmallKind)
    ensures r == -1 ==> forall c: nat :: c < Classes(SmallKind) ==> SlotSize(SmallKind, c) < len
    ensures r != -1 ==> len <= SlotSize(SmallKind, r) && forall c: nat :: c < r ==> SlotSize(SmallKind, c) < len
  {
    r := GetSlabClass(SmallKind, len);
  }

  /** `get_tiny_allocsize` */
  method GetTinyAllocsize(len: int) returns (r: int)
    ensures -1 <= r < Classes(TinyKind)
    ensures r == -1 ==> forall c: nat :: c < Classes(TinyKind) ==> SlotSize(TinyKind, c) < len
    ensures r != -1 ==> len <= SlotSize(TinyKind, r) && forall c: nat :: c < r ==> SlotSize(TinyKind, c) < len
  {
    r := GetSlabClass(TinyKind, len);
  }

  method GetSlabClass(kind: Kind, len: int) returns (r: int)
    ensures -1 <= r < Classes(kind)
    ensures r == -1 ==> forall c: nat :: c < Classes(kind) ==> SlotSize(kind, c) < len
    ensures r != -1 ==> len <= SlotSize(kind, r) && forall c: nat :: c < r ==> SlotSize(kind, c) < len
  {
    r := 0;
    while r < Classes(kind)
      invariant 0 <= r <= Classes(kind) && forall c: nat :: c < r ==> SlotSize(kind, c) < len
    {
      if len <= SlotSize(kind, r) {
        return;
      }
      r := r + 1;
    }
    r := -1;
  }

  lemma FirstTinySlot(c: nat) returns (i: nat)
    requires c < Classes(TinyKind)
    ensures i < 32 && FindNextBit(Header(TinyKind, c)) == One(i) && i !in HeaderSlots(TinyKind, c)
    ensures var bm := Or(Header(TinyKind, c), One(i));
            && Bits(bm) == HeaderSlots(TinyKind, c) + {i} && ItemOk(TinyKind, Slab(c, bm)) && Bits(bm) != Upto(32)
  {
    hide Bits, Or, One, FindNextBit, Upto;
    HeaderIs(TinyKind, c);
    var b := Header(TinyKind, c);
    i := FindsClear(b);
    OrBits(b, i);
    UptoIs(32);
    UptoIs(2);
    UptoIs(1);
    HeaderSmall(c, i);
  }

  lemma HandedLive(v: View, v': View, h: Handle)
    requires Added(v, v', h)
    ensures LiveH(v', h)
  {
  }

  lemma SwappedLive(v: View, v': View, h: Handle, k: Handle)
    requires Swapped(v, v', h, k)
    ensures LiveH(v, h)
  {
  }

  lemma TinyNat(v: View, a: int, i: nat)
    requires Layers(v) && a in v.tiny
    ensures 0 <= a && Base(v, TinyH(a, i)) == a + SlotSize(TinyKind, v.tiny[a].cls) * i
    ensures Size(v, TinyH(a, i)) == SlotSize(TinyKind, v.tiny[a].cls)
  {
    hide Bits;
    assert InSlab(v.slab, a, v.tiny[a].cls);
  }

  lemma TinySlot(items: map<int, Slab>, free: seq<seq<int>>, a: int, i: nat)
    requires CacheOk(TinyKind, items, free) && a in items && i in Bits(items[a].bm)
      && i !in HeaderSlots(TinyKind, items[a].cls)
    ensures i < 32
    ensures var bm, c := Xor(items[a].bm, One(i)), items[a].cls;
            && ItemOk(TinyKind, items[a]) && c < Classes(TinyKind) && |free| == Classes(TinyKind)
            && Bits(bm) == Bits(items[a].bm) - {i} && Bits(bm) != Upto(32)
            && (bm != Header(TinyKind, c) ==> ItemOk(TinyKind, items[a].(bm := bm)))
            && (bm == Header(TinyKind, c) ==>
              Bits(items[a].bm) == HeaderSlots(TinyKind, c) + {i} && Bits(items[a].bm) != Upto(32))
  {
    hide One, Xor, ListOk, Upto, Bits, HeaderSlots;
    assert ItemOk(TinyKind, items[a]);
    SlotBelow(items[a].bm, i);
    GivenSlot(TinyKind, items[a], i);
    var c, bm := items[a].cls, Xor(items[a].bm, One(i));
    HeaderIs(TinyKind, c);
    if bm == Header(TinyKind, c) {
      HeaderSmall(c, i);
    } else if Bits(bm) == HeaderSlots(TinyKind, c) {
      BitsInjective(bm, Header(TinyKind, c));
    }
  }

  lemma SlotBelow(b: bv32, i: nat)
    requires i in Bits(b)
    ensures i < 32
  {
  }

  lemma HeaderSmall(c: nat, i: nat)
    ensures HeaderSlots(TinyKind, c) + {i} != Upto(32)
  {
    UptoIs(32);
    UptoIs(2);
    UptoIs(1);
    assert 30 in Upto(32) && 31 in Upto(32);
  }

  lemma ContainerClass(c: nat, r: int)
    requires c < 3 && -1 <= r < 5
    requires r == -1 ==> forall o: nat :: o < 5 ==> SlotSize(SmallKind, o) < SlotSize(TinyKind, c) * 32
    requires r != -1 ==> SlotSize(TinyKind, c) * 32 <= SlotSize(SmallKind, r)
    requires r != -1 ==> forall o: nat :: o < r ==> SlotSize(SmallKind, o) < SlotSize(TinyKind, c) * 32
    ensures r == c + 2
  {
    assert SlotSize(SmallKind, c + 2) == SlotSize(TinyKind, c) * 32;
  }

  // ---------------------------------------------------------------- sizes

  /** The sizes in which memory is handed out. */
  ghost predicate Offered(k: nat, z: int) {
    || (exists c: nat :: c < 3 && z == SlotSize(TinyKind, c))
    || (exists c: nat :: c < 5 && z == SlotSize(SmallKind, c))
    || (exists i: nat, j: int {:trigger SizeOf(i, j)} :: i < k && -1 <= j < i && z == PAGE * SizeOf(i, j))
  }

  ghost predicate Least(k: nat, len: int, z: int) {
    Offered(k, z) && len <= z && forall y :: Offered(k, y) && len <= y ==> z <= y
  }

  lemma LeastSmall(k: nat, len: int, c: nat)
    requires c < 5 && len <= SlotSize(SmallKind, c) && (forall o: nat :: o < c ==> SlotSize(SmallKind, o) < len)
    requires c == 0 ==> forall o: nat :: o < 3 ==> SlotSize(TinyKind, o) < len
    ensures Least(k, len, SlotSize(SmallKind, c))
  {
    assert c > 0 ==> SlotSize(SmallKind, 0) < len;
    forall y | Offered(k, y) && len <= y ensures SlotSize(SmallKind, c) <= y {
      assert forall o: nat :: o < 3 ==> SlotSize(TinyKind, o) < len;
      if i: nat, j: int {:trigger SizeOf(i, j)} :| i < k && -1 <= j < i && y == PAGE * SizeOf(i, j) {
        assert SizeOf(i, j) >= 1;
      } else {
        var o: nat :| o < 5 && y == SlotSize(SmallKind, o);
      }
    }
  }

  lemma LeastTiny(k: nat, len: int, c: nat)
    requires c < 3 && len <= SlotSize(TinyKind, c) && (forall o: nat :: o < c ==> SlotSize(TinyKind, o) < len)
    ensures Least(k, len, SlotSize(TinyKind, c))
  {
    forall y | Offered(k, y) && len <= y ensures SlotSize(TinyKind, c) <= y {
      if i: nat, j: int {:trigger SizeOf(i, j)} :| i < k && -1 <= j < i && y == PAGE * SizeOf(i, j) {
        assert SizeOf(i, j) >= 1;
      } else if o: nat :| o < 3 && y == SlotSize(TinyKind, o) {
      } else {
        var o: nat :| o < 5 && y == SlotSize(SmallKind, o);
      }
    }
  }

  lemma LeastPages(k: nat, len: int, i: nat, j: int)
    requires Fits(k, (len + 4095) / 4096, i, j) && forall c: nat :: c < 5 ==> SlotSize(SmallKind, c) < len
    ensures Least(k, len, PAGE * SizeOf(i, j))
  {
    hide Pow2;
    assert SlotSize(SmallKind, 4) < len;
    forall y | Offered(k, y) && len <= y ensures PAGE * SizeOf(i, j) <= y {
      assert forall o: nat :: o < 3 ==> SlotSize(TinyKind, o) < len;
      var a: nat, b: int {:trigger SizeOf(a, b)} :| a < k && -1 <= b < a && y == PAGE * SizeOf(a, b);
    }
  }

  lemma SlabServes(k: nat, u: set<int>, small: seq<seq<int>>, tiny: seq<seq<int>>, len: int, c: nat, t: int)
    requires c < 5 && len <= SlotSize(SmallKind, c) && forall o: nat :: o < c ==> SlotSize(SmallKind, o) < len
    requires -1 <= t < 3 && (c > 0 ==> t == -1)
    requires c == 0 && t == -1 ==> forall o: nat :: o < 3 ==> SlotSize(TinyKind, o) < len
    requires t != -1 ==> len <= SlotSize(TinyKind, t) && forall o: nat :: o < t ==> SlotSize(TinyKind, o) < len
    ensures Exhausted(k, u, small, tiny, len) <==>
      !Room(u, 0, 1) && if t == -1 then Listless(small, c) else Listless(tiny, t) && Listless(small, t + 2)
  {
    hide Listless, Room;
    if t == -1 {
      assert c > 0 ==> SlotSize(SmallKind, 0) < len;
      assert BySmall(len, c);
      forall d: nat | BySmall(len, d) ensures d == c {}
    } else {
      assert ByTiny(len, t);
      forall d: nat | ByTiny(len, d) ensures d == t {}
    }
  }

  lemma LargeServes(k: nat, u: set<int>, small: seq<seq<int>>, tiny: seq<seq<int>>, len: int)
    requires forall c: nat :: c < 5 ==> SlotSize(SmallKind, c) < len
    ensures Exhausted(k, u, small, tiny, len) <==> NoPages(k, u, (len + 4095) / 4096)
  {
    assert SlotSize(SmallKind, 4) < len;
  }

  lemma PagesServe(k: nat, u: set<int>, len: int, i: int, j: int)
    requires (forall c: nat :: c < 5 ==> SlotSize(SmallKind, c) < len) && i >= -1
    requires (i == -1 <==> TooBig(k, (len + 4095) / 4096)) && (i != -1 ==> Fits(k, (len + 4095) / 4096, i, j))
    ensures len > SlotSize(SmallKind, 4)
    ensures NoPages(k, u, (len + 4095) / 4096) <==> !(i != -1 && RoomFor(u, i, j))
  {
    hide Fits, TooBig, RoomFor;
    assert SlotSize(SmallKind, 4) < len;
    var n := (len + 4095) / 4096;
    forall a: nat, b: int | Fits(k, n, a, b) && i >= 0 ensures a == i && b == j {
      OneShape(k, n, a, b, i, j);
    }
  }

  // ---------------------------------------------------------------- from an address to its layer

  ghost predicate RouteOk(v: View, h: Handle, p: int, pageOffset: int) {
    && 0 <= p < |v.page| && (v.page[p].ty == Small <==> !h.PageH?)
    && (h.PageH? ==> p == h.p)
    && (!h.PageH? ==> p in v.slab && var rest := pageOffset % SlotSize(SmallKind, v.slab[p].cls);
         && (h.SmallH? ==> rest == 0 && p == h.p && pageOffset == Offset(SmallKind, v.slab[p].cls, h.i))
         && (h.TinyH? ==> rest != 0 && p == h.a / PAGE && Base(v, h) - rest == h.a && h.a in v.tiny
                          && rest == Offset(TinyKind, v.tiny[h.a].cls, h.i)))
  }

  /** `free` and `get_alloc_len` read the layer, and the place in it, off an address. */
  lemma Route(s: Pool, v: View, h: Handle)
    requires Inv(s, {}, -1) && Paired(s.page) && v.page == s.page && Layers(v) && LiveH(v, h)
    ensures RouteOk(v, h, Base(v, h) / PAGE, Base(v, h) % PAGE)
  {
    hide Inv, Paired, Tail, Bits, Upto, Slots, BlockLen, ItemOk;
    PageLevel(s, v, h);
    if h.SmallH? {
      InBlock(v, h);
      SlotBack(h.p, v.slab[h.p].cls, h.i, 0);
    } else if h.TinyH? {
      InBlock(v, h);
      TinyInside(v, h.a, h.i);
      SlotBack(h.a / PAGE, v.slab[h.a / PAGE].cls, BlockOf(v, h), Offset(TinyKind, v.tiny[h.a].cls, h.i));
    }
  }

  lemma TinyInside(v: View, a: int, i: nat)
    requires Layers(v) && LiveH(v, TinyH(a, i))
    ensures 0 < Offset(TinyKind, v.tiny[a].cls, i) < SlotSize(SmallKind, v.tiny[a].cls + 2)
    ensures a == SlotAt(a / PAGE, v.tiny[a].cls + 2, BlockOf(v, TinyH(a, i)))
      && v.slab[a / PAGE].cls == v.tiny[a].cls + 2
  {
    hide Bits, Upto, HeaderSlots;
    assert InSlab(v.slab, a, v.tiny[a].cls) && ItemOk(TinyKind, v.tiny[a]);
    UptoIs(32);
    HeaderSlotsIs(v.tiny[a].cls);
    SlotIn(TinyKind, v.tiny[a].cls, i);
  }

  lemma PageRemoved(v: View, page': seq<Page>, p: int)
    requires Layers(v) && Paired(v.page) && Paired(page') && LiveH(v, PageH(p)) && |page'| == |v.page|
    requires SameLive(v.page, page', Extent(v.page, p)) && !Live(page'[p].ty)
    requires v.page[p].ty == Cont ==> !Live(page'[p + Pow2(v.page[p].ord)].ty)
    ensures Layers(v.(page := page')) && Added(v.(page := page'), v, PageH(p))
  {
    hide Layers, Tail, Pow2, Upper, Added;
    PageLayers(v, page', Extent(v.page, p));
    PageAdded(v.(page := page'), v.page, p);
  }

  // ---------------------------------------------------------------- contents

  ghost predicate InHeader(v: View, x: int) {
    exists a :: a in v.tiny && a <= x < a + HEADER
  }

  /** Only headers of tiny containers, old and new ones, have been written to. */
  ghost predicate HeaderOnly(v: View, v': View, mem: seq<int>, mem': seq<int>) {
    |mem'| == |mem| && forall x :: 0 <= x < |mem| && !InHeader(v, x) && !InHeader(v', x) ==> mem'[x] == mem[x]
  }

  /** The bytes of `g` are as they were. */
  ghost predicate Keeps(v: View, mem: seq<int>, mem': seq<int>, g: Handle) {
    |mem'| == |mem| && forall x :: 0 <= x < |mem| && Base(v, g) <= x < Base(v, g) + Size(v, g) ==> mem'[x] == mem[x]
  }

  /** Only header fields of the containers in `cs` have been written. */
  ghost predicate OnlyAt(mem: seq<int>, mem': seq<int>, cs: seq<int>) {
    |mem'| == |mem| && forall x :: 0 <= x < |mem| && OffHeaders(x, cs) ==> mem'[x] == mem[x]
  }

  ghost predicate OffHeaders(x: int, cs: seq<int>) {
    forall i :: 0 <= i < |cs| ==> x < cs[i] || cs[i] + HEADER <= x
  }

  lemma OnlyHeaders(v: View, v': View, mem: seq<int>, mem': seq<int>, cs: seq<int>)
    requires OnlyAt(mem, mem', cs) && forall i :: 0 <= i < |cs| ==> cs[i] in v.tiny || cs[i] in v'.tiny
    ensures HeaderOnly(v, v', mem, mem')
  {
    forall x | 0 <= x < |mem| && !InHeader(v, x) && !InHeader(v', x) ensures mem'[x] == mem[x] {
      assert OffHeaders(x, cs);
    }
  }

  lemma OnLists(tiny: map<int, Slab>, free: seq<seq<int>>, tiny': map<int, Slab>, free': seq<seq<int>>, c: nat, a: int,
                i: nat)
    requires c < Classes(TinyKind) && CacheOk(TinyKind, tiny, free) && CacheOk(TinyKind, tiny', free')
    requires a in tiny || a in tiny'
    requires c < |free| && c < |free'| && i < |[a] + free[c] + free'[c]|
    ensures var x := ([a] + free[c] + free'[c])[i]; x in tiny || x in tiny'
  {
    hide CacheOk;
    var x := ([a] + free[c] + free'[c])[i];
    if x in free[c] {
      OnSlabList(TinyKind, tiny, free, c, x);
    } else if x in free'[c] {
      OnSlabList(TinyKind, tiny', free', c, x);
    }
  }

  lemma SameMemory(v: View, v': View, mem: seq<int>)
    ensures HeaderOnly(v, v', mem, mem)
  {
  }

  lemma StaysPut(v: View, v': View, h: Handle, g: Handle)
    requires Added(v, v', h) && (LiveH(v, g) || (g != h && LiveH(v', g)))
    ensures LiveH(v, g) && LiveH(v', g) && Base(v', g) == Base(v, g) && Size(v', g) == Size(v, g)
  {
    hide LiveH, Base, Size;
  }

  lemma Kept(s: Pool, v: View, s': Pool, v': View, mem: seq<int>, mem': seq<int>, g: Handle)
    requires Inv(s, {}, -1) && Paired(s.page) && v.page == s.page && Layers(v) && LiveH(v, g)
    requires Inv(s', {}, -1) && Paired(s'.page) && v'.page == s'.page && Layers(v') && LiveH(v', g)
    requires Base(v', g) == Base(v, g) && Size(v', g) == Size(v, g) && HeaderOnly(v, v', mem, mem')
    ensures Keeps(v, mem, mem', g)
  {
    hide Inv, Paired, Layers, LiveH, Base, Size;
    forall x | 0 <= x < |mem| && Base(v, g) <= x < Base(v, g) + Size(v, g) ensures mem'[x] == mem[x] {
      forall a | a in v.tiny ensures !(a <= x < a + HEADER) {
        HeadersClear(s, v, a, g);
      }
      forall a | a in v'.tiny ensures !(a <= x < a + HEADER) {
        HeadersClear(s', v', a, g);
      }
    }
  }

  /** `h` has become `k`, possibly itself, and nothing else has changed. */
  ghost predicate Moved(v: View, v': View, h: Handle, k: Handle) {
    && LiveH(v', k) && (k != h ==> !LiveH(v', h) && !LiveH(v, k))
    && forall g :: g != h && g != k ==>
      (LiveH(v', g) <==> LiveH(v, g)) && (LiveH(v, g) ==> Base(v', g) == Base(v, g) && Size(v', g) == Size(v, g))
  }

  lemma TailInRange(page: seq<Page>, p: int)
    requires Paired(page) && 0 <= p < |page| && page[p].ty == Cont
    ensures p + Pow2(page[p].ord) < |page|
  {
  }

  lemma SomeSize(k: nat, len: int)
    requires (exists y :: Offered(k, y) && len <= y) && forall c: nat :: c < 5 ==> SlotSize(SmallKind, c) < len
    ensures !TooBig(k, (len + 4095) / 4096)
  {
    hide Pow2;
    assert SlotSize(SmallKind, 4) < len;
    assert forall o: nat :: o < 3 ==> SlotSize(TinyKind, o) < len;
    var y :| Offered(k, y) && len <= y;
    var a: nat, b: int {:trigger SizeOf(a, b)} :| a < k && -1 <= b < a && y == PAGE * SizeOf(a, b);
  }

  lemma SizeIs(i: nat, j: int)
    ensures SizeOf(i, j) == Pow2(i) + if j >= 0 then Pow2(j) else 0
  {
  }

  function Min(a: int, b: int): int {
    if a < b then a else b
  }

  lemma LeastCovers(k: nat, len: int, z: int)
    requires Least(k, len, z)
    ensures len <= z
  {
  }

  lemma LeastBelow(k: nat, len: int, z: int, y: int)
    requires Least(k, len, z) && Offered(k, y) && len <= y
    ensures z <= y
  {
  }

  lemma LeastSelf(k: nat, z: int)
    requires Offered(k, z)
    ensures Least(k, z, z)
  {
  }

  lemma LeastOnly(k: nat, len: int, z: int)
    ensures Least(k, len, z) ==> len <= z
  {
  }

  lemma LeastOnce(k: nat, len: int, z: int, y: int)
    requires Least(k, len, z)
    ensures Least(k, len, y) <==> y == z
  {
  }

  /** Whatever is handed out has one of the sizes on offer. */
  lemma OfferedSize(s: Pool, v: View, h: Handle)
    requires Inv(s, {}, -1) && Paired(s.page) && v.page == s.page && Layers(v) && LiveH(v, h)
    ensures Offered(s.k, Size(v, h))
  {
    hide Bits, Upto, Tail, Pow2, Lists, Tiles, Canonical, Upper, Aligned;
    match h
    case PageH(p) =>
      var i := v.page[p].ord;
      var j := if v.page[p].ty == Cont then v.page[p + Pow2(i)].ord as int else -1;
      assert Size(v, h) == PAGE * SizeOf(i, j);
    case SmallH(p, i) =>
      assert ItemOk(SmallKind, v.slab[p]);
    case TinyH(a, i) =>
      assert ItemOk(TinyKind, v.tiny[a]);
  }

  /** What is handed out lies within the memory. */
  lemma Inside(s: Pool, v: View, h: Handle)
    requires Inv(s, {}, -1) && Paired(s.page) && v.page == s.page && Layers(v) && LiveH(v, h)
    ensures 0 <= Base(v, h) && 0 < Size(v, h) && Base(v, h) + Size(v, h) <= PAGE * |s.page|
  {
    hide Bits, Upto, Tail, Pow2, Lists, Tiles, Canonical, Upper, Aligned, Layers, ItemOk;
    PageLevel(s, v, h);
    var p := PageOf(h);
    BlockEnds(s.k, s.page, p);
    if s.page[p].ty == Cont {
      BlockEnds(s.k, s.page, p + Pow2(s.page[p].ord));
    }
  }

  ghost function Copied(mem: seq<int>, to: int, from: int, n: nat): seq<int>
    requires 0 <= from && from + n <= |mem|
  {
    seq(|mem|, x requires 0 <= x < |mem| => if to <= x < to + n then mem[from + (x - to)] else mem[x])
  }

  ghost predicate SameBytes(mem: seq<int>, from: int, mem': seq<int>, to: int, n: int) {
    && 0 <= n && 0 <= from && from + n <= |mem| && 0 <= to && to + n <= |mem'|
    && mem'[to..to + n] == mem[from..from + n]
  }

  lemma NotSame(v: View, v': View, h: Handle, g: Handle)
    requires Added(v, v', h) && LiveH(v, g)
    ensures g != h
  {
  }

  lemma MovedOn(v0: View, v1: View, v2: View, k: Handle, h: Handle)
    requires Added(v0, v1, k) && Added(v2, v1, h) && k != h && LiveH(v0, h)
    ensures Moved(v0, v2, h, k) && Base(v2, k) == Base(v1, k) && Size(v2, k) == Size(v1, k)
  {
    hide LiveH, Base, Size;
  }

  lemma Contents(v0: View, v1: View, m0: seq<int>, m1: seq<int>, m2: seq<int>, m3: seq<int>, h: Handle, k: Handle,
                 virt: int, r: int, n: nat)
    requires virt == Base(v0, h) && n <= Size(v0, h) && r == Base(v1, k) && n <= Size(v1, k)
    requires 0 <= virt && virt + n <= |m1| && 0 <= r && r + n <= |m1|
    requires Keeps(v0, m0, m1, h) && m2 == Copied(m1, r, virt, n) && Keeps(v1, m2, m3, k)
    ensures SameBytes(m0, virt, m3, r, n)
  {
    hide Base, Size;
    var a, b := m3[r..r + n], m0[virt..virt + n];
    forall x | 0 <= x < n ensures a[x] == b[x] {
      assert m1[virt + x] == m0[virt + x];
      assert m2[r + x] == m1[virt + x];
      assert m3[r + x] == m2[r + x];
    }
  }

  lemma KeepsCopy(v0: View, v1: View, m0: seq<int>, m1: seq<int>, m3: seq<int>, g: Handle, k: Handle, virt: int,
                  r: int, n: nat)
    requires Base(v1, g) == Base(v0, g) && Size(v1, g) == Size(v0, g) && r == Base(v1, k) && n <= Size(v1, k)
    requires 0 <= virt && virt + n <= |m1|
      && Clear(Base(v1, g), Base(v1, g) + Size(v1, g), Base(v1, k), Base(v1, k) + Size(v1, k))
    requires Keeps(v0, m0, m1, g) && Keeps(v1, Copied(m1, r, virt, n), m3, g)
    ensures Keeps(v0, m0, m3, g)
  {
    hide Base, Size;
    var m2 := Copied(m1, r, virt, n);
    forall x | 0 <= x < |m0| && Base(v0, g) <= x < Base(v0, g) + Size(v0, g) ensures m3[x] == m0[x] {
      assert m1[x] == m0[x];
      assert m2[x] == m1[x];
    }
  }
}
