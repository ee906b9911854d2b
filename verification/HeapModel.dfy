/** What is handed out by the three layers of the allocator, and why no two of those byte
    ranges meet. */
module HeapModel {
  import opened PageMath
  import opened PagePool
  import opened PageAllocator
  import opened Bitmap
  import opened SlabCache

  const PAGE: int := 4096

  /** What a caller of `alloc` holds: a page allocation, a slot of a slab page, or a slot of
      a tiny container. */
  datatype Handle = PageH(p: int) | SmallH(p: int, i: nat) | TinyH(a: int, i: nat)

  /** Slabs are known by their page number, tiny containers by their address. */
  datatype View = View(page: seq<Page>, slab: map<int, Slab>, tiny: map<int, Slab>)

  predicate InUse(ty: PageType) {
    ty == Allocated || ty == Cont || ty == Reserved
  }

  function Offset(kind: Kind, c: nat, i: nat): nat {
    i * SlotSize(kind, c)
  }

  function SlotAt(p: int, c: nat, i: nat): int {
    PAGE * p + Offset(SmallKind, c, i)
  }

  ghost predicate LivePage(page: seq<Page>, p: int) {
    0 <= p < |page| && InUse(page[p].ty) && !Tail(page, p)
  }

  ghost predicate LiveH(v: View, h: Handle) {
    match h
    case PageH(p) => LivePage(v.page, p)
    case SmallH(p, i) => p in v.slab && i in Bits(v.slab[p].bm) && SlotAt(p, v.slab[p].cls, i) !in v.tiny
    case TinyH(a, i) => a in v.tiny && i in Bits(v.tiny[a].bm) && i !in HeaderSlots(TinyKind, v.tiny[a].cls)
  }

  ghost function Base(v: View, h: Handle): int {
    match h
    case PageH(p) => PAGE * p
    case SmallH(p, i) => if p in v.slab then SlotAt(p, v.slab[p].cls, i) else 0
    case TinyH(a, i) => if a in v.tiny then a + Offset(TinyKind, v.tiny[a].cls, i) else 0
  }

  ghost function Size(v: View, h: Handle): int {
    match h
    case PageH(p) => if 0 <= p < |v.page| then PAGE * BlockLen(v.page, p) else 0
    case SmallH(p, i) => if p in v.slab then SlotSize(SmallKind, v.slab[p].cls) else 0
    case TinyH(a, i) => if a in v.tiny then SlotSize(TinyKind, v.tiny[a].cls) else 0
  }

  /** The slab page that a tiny container lies in. */
  ghost predicate InSlab(slab: map<int, Slab>, a: int, c: nat) {
    var p := a / PAGE;
    && p in slab && slab[p].cls == c + 2
    && a == SlotAt(p, c + 2, a % PAGE / SlotSize(SmallKind, c + 2))
    && a % PAGE / SlotSize(SmallKind, c + 2) in Bits(slab[p].bm)
  }

  /** How the layers rest on each other. */
  ghost predicate Layers(v: View) {
    && (forall p :: p in v.slab <==> 0 <= p < |v.page| && v.page[p].ty == Small)
    && (forall p :: p in v.slab ==> v.page[p].ord == 0)
    && (forall p :: p in v.slab ==> ItemOk(SmallKind, v.slab[p]))
    && (forall a :: a in v.tiny ==> ItemOk(TinyKind, v.tiny[a]))
    && (forall a :: a in v.tiny ==> InSlab(v.slab, a, v.tiny[a].cls))
  }

  ghost predicate Clear(lo: int, hi: int, lo': int, hi': int) {
    hi <= lo' || hi' <= lo
  }

  // ---------------------------------------------------------------- inside a page

  lemma SlotIn(kind: Kind, c: nat, i: nat)
    requires i < Slots(kind, c)
    ensures Offset(kind, c, i) + SlotSize(kind, c) <= SlotSize(kind, c) * Slots(kind, c)
    ensures kind == SmallKind ==> SlotSize(kind, c) * Slots(kind, c) == PAGE
    ensures kind == TinyKind && c < 3 ==> SlotSize(kind, c) * Slots(kind, c) == SlotSize(SmallKind, c + 2)
  {
  }

  lemma SlotsApart(kind: Kind, c: nat, i: nat, j: nat)
    requires i != j
    ensures Clear(Offset(kind, c, i), Offset(kind, c, i) + SlotSize(kind, c), Offset(kind, c, j),
      Offset(kind, c, j) + SlotSize(kind, c))
  {
    if i < j {
      MulMonotone(SlotSize(kind, c), i, j);
    } else {
      MulMonotone(SlotSize(kind, c), j, i);
    }
  }

  /** Reading an address back: the page, the slot and what is left over. */
  lemma SlotBack(p: int, c: nat, i: nat, x: nat)
    requires i < Slots(SmallKind, c) && x < SlotSize(SmallKind, c)
    ensures var v := SlotAt(p, c, i) + x;
            && v / PAGE == p && v % PAGE == Offset(SmallKind, c, i) + x
            && v % PAGE / SlotSize(SmallKind, c) == i && v % PAGE % SlotSize(SmallKind, c) == x
  {
    SlotIn(SmallKind, c, i);
    var v := SlotAt(p, c, i) + x;
    assert v / PAGE == p && v % PAGE == Offset(SmallKind, c, i) + x;
    DivMod(v % PAGE, SlotSize(SmallKind, c), i, x);
  }

  // ---------------------------------------------------------------- across pages

  lemma HeadsApart(s: Pool, x: int, y: int)
    requires Orders(s.k, s.page) && Tiles(s.page, s.own) && Head(s.page, x) && Head(s.page, y) && x != y
    ensures Clear(x, x + Pow2(s.page[x].ord), y, y + Pow2(s.page[y].ord))
  {
    hide Pow2, Aligned;
    assert In(s.page, x, x) && In(s.page, y, y);
    assert !In(s.page, x, y) && !In(s.page, y, x);
  }

  /** Page allocations, and slab pages, do not share pages. */
  lemma PagesApart(s: Pool, x: int, y: int)
    requires Inv(s, {}, -1) && Paired(s.page) && x != y
    requires 0 <= x < |s.page| && Live(s.page[x].ty) && !Tail(s.page, x)
    requires 0 <= y < |s.page| && Live(s.page[y].ty) && !Tail(s.page, y)
    ensures Clear(x, x + BlockLen(s.page, x), y, y + BlockLen(s.page, y))
  {
    hide Pow2, Aligned, Upper, Lists, Canonical, Orders, Tiles;
    HeadsApart(s, x, y);
    var x', y' := x + Pow2(s.page[x].ord), y + Pow2(s.page[y].ord);
    if s.page[x].ty == Cont {
      assert x' != y;
      HeadsApart(s, x', y);
    }
    if s.page[y].ty == Cont {
      assert y' != x;
      HeadsApart(s, x, y');
    }
    if s.page[x].ty == Cont && s.page[y].ty == Cont {
      TailsApart(s, x, y);
      HeadsApart(s, x', y');
    }
  }

  lemma TailsApart(s: Pool, x: int, y: int)
    requires Inv(s, {}, -1) && Paired(s.page) && x != y && 0 <= x < |s.page| && 0 <= y < |s.page|
    requires s.page[x].ty == Cont && s.page[y].ty == Cont
    ensures x + Pow2(s.page[x].ord) != y + Pow2(s.page[y].ord)
  {
    hide Pow2, Inv;
    NotTwoTails(s, x);
    var page' := Take(s, x, Allocated).page;
    assert page'[y] == s.page[y];
  }

  // ---------------------------------------------------------------- disjointness

  /** The page a handle belongs to. */
  ghost function PageOf(h: Handle): int {
    if h.TinyH? then h.a / PAGE else h.p
  }

  /** A slot of a slab page or a tiny slot lies within its block, and the block within its
      page. */
  ghost function BlockOf(v: View, h: Handle): nat {
    if h.SmallH? then h.i else if h.TinyH? && h.a in v.tiny then h.a % PAGE / SlotSize(SmallKind, v.tiny[h.a].cls + 2)
      else 0
  }

  lemma InBlock(v: View, h: Handle)
    requires Layers(v) && LiveH(v, h) && !h.PageH?
    ensures PageOf(h) in v.slab
    ensures var c, b := v.slab[PageOf(h)].cls, BlockOf(v, h);
            && b in Bits(v.slab[PageOf(h)].bm) && b < Slots(SmallKind, c)
            && SlotAt(PageOf(h), c, b) <= Base(v, h)
              && Base(v, h) + Size(v, h) <= SlotAt(PageOf(h), c, b) + SlotSize(SmallKind, c)
  {
    hide Bits, Upto, Offset;
    var p := PageOf(h);
    if h.SmallH? {
      assert ItemOk(SmallKind, v.slab[p]);
      UptoIs(Slots(SmallKind, v.slab[p].cls));
    } else {
      assert InSlab(v.slab, h.a, v.tiny[h.a].cls) && ItemOk(TinyKind, v.tiny[h.a]);
      assert ItemOk(SmallKind, v.slab[p]);
      UptoIs(Slots(SmallKind, v.slab[p].cls));
      UptoIs(Slots(TinyKind, v.tiny[h.a].cls));
      SlotIn(TinyKind, v.tiny[h.a].cls, h.i);
    }
  }

  lemma InPage(v: View, h: Handle)
    requires Layers(v) && LiveH(v, h) && !h.PageH?
    ensures PageOf(h) in v.slab && PAGE * PageOf(h) <= Base(v, h) && Base(v, h) + Size(v, h) <= PAGE * PageOf(h) + PAGE
  {
    hide Bits, Upto;
    InBlock(v, h);
    SlotIn(SmallKind, v.slab[PageOf(h)].cls, BlockOf(v, h));
  }

  /** Two slots of one slab page. */
  lemma BlocksApart(v: View, g: Handle, h: Handle)
    requires Layers(v) && LiveH(v, g) && LiveH(v, h) && !g.PageH? && !h.PageH? && PageOf(g) == PageOf(h)
    requires BlockOf(v, g) != BlockOf(v, h)
    ensures Clear(Base(v, g), Base(v, g) + Size(v, g), Base(v, h), Base(v, h) + Size(v, h))
  {
    hide Bits, Upto, Offset, Layers, LiveH, Base, Size;
    InBlock(v, g);
    InBlock(v, h);
    SlotsApart(SmallKind, v.slab[PageOf(g)].cls, BlockOf(v, g), BlockOf(v, h));
  }

  lemma SameBlockApart(v: View, g: Handle, h: Handle)
    requires Layers(v) && LiveH(v, g) && LiveH(v, h) && !g.PageH? && !h.PageH? && PageOf(g) == PageOf(h) && g != h
    requires BlockOf(v, g) == BlockOf(v, h)
    ensures Clear(Base(v, g), Base(v, g) + Size(v, g), Base(v, h), Base(v, h) + Size(v, h))
  {
    hide Bits, Upto, Offset, HeaderSlots;
    assert g.TinyH? ==> InSlab(v.slab, g.a, v.tiny[g.a].cls);
    assert h.TinyH? ==> InSlab(v.slab, h.a, v.tiny[h.a].cls);
    if g.TinyH? && h.TinyH? {
      assert g.a == h.a;
      SlotsApart(TinyKind, v.tiny[g.a].cls, g.i, h.i);
    }
  }

  lemma SlabNotTail(page: seq<Page>, p: int)
    requires Paired(page) && 0 <= p < |page| && page[p].ty == Small
    ensures !Tail(page, p)
  {
  }

  lemma PageLevel(s: Pool, v: View, h: Handle)
    requires Inv(s, {}, -1) && Paired(s.page) && v.page == s.page && Layers(v) && LiveH(v, h)
    ensures var p := PageOf(h);
            && 0 <= p < |s.page| && Live(s.page[p].ty) && !Tail(s.page, p) && (s.page[p].ty == Small <==> !h.PageH?)
            && PAGE * p <= Base(v, h) && Base(v, h) + Size(v, h) <= PAGE * (p + BlockLen(s.page, p))
  {
    hide Bits, Upto, Offset, Tail, Inv, Paired;
    if h.PageH? {
    } else {
      InPage(v, h);
      SlabNotTail(s.page, PageOf(h));
    }
  }

  /** Whatever is handed out, the byte ranges do not meet. */
  lemma RangesApart(s: Pool, v: View, g: Handle, h: Handle)
    requires Inv(s, {}, -1) && Paired(s.page) && v.page == s.page && Layers(v) && LiveH(v, g) && LiveH(v, h) && g != h
    ensures Clear(Base(v, g), Base(v, g) + Size(v, g), Base(v, h), Base(v, h) + Size(v, h))
  {
    hide Inv, Paired, Layers, LiveH, Base, Size, BlockOf, Tail, BlockLen;
    PageLevel(s, v, g);
    PageLevel(s, v, h);
    if PageOf(g) != PageOf(h) {
      PagesApart(s, PageOf(g), PageOf(h));
    } else if !g.PageH? {
      if BlockOf(v, g) != BlockOf(v, h) {
        BlocksApart(v, g, h);
      } else {
        SameBlockApart(v, g, h);
      }
    }
  }

  /** The header of a tiny container is a slot of a slab page that is in use, and clear of
      everything handed out. */
  lemma HeadersClear(s: Pool, v: View, a: int, h: Handle)
    requires Inv(s, {}, -1) && Paired(s.page) && v.page == s.page && Layers(v) && LiveH(v, h) && a in v.tiny
    ensures Clear(a, a + HEADER, Base(v, h), Base(v, h) + Size(v, h))
  {
    hide Bits, Upto, Offset, Inv, Paired, Tail, BlockLen;
    var c := v.tiny[a].cls;
    var p, b := a / PAGE, a % PAGE / SlotSize(SmallKind, c + 2);
    assert InSlab(v.slab, a, c) && ItemOk(SmallKind, v.slab[p]) && ItemOk(TinyKind, v.tiny[a]);
    UptoIs(Slots(SmallKind, c + 2));
    SlotIn(SmallKind, c + 2, b);
    PageLevel(s, v, h);
    SlabNotTail(s.page, p);
    if PageOf(h) != p {
      PagesApart(s, PageOf(h), p);
      SlabLen(s.page, p);
    } else {
      InBlock(v, h);
      if BlockOf(v, h) != b {
        SlotsApart(SmallKind, c + 2, BlockOf(v, h), b);
      } else {
        HeaderFits(v, a, h);
      }
    }
  }

  lemma SlabLen(page: seq<Page>, p: int)
    requires 0 <= p < |page| && page[p] == Page(Small, 0)
    ensures BlockLen(page, p) == 1
  {
  }

  /** The size of `struct tiny_allocdata`: two pointers, a 32-bit map and a byte, padded. */
  const HEADER: int := 24

  lemma HeaderFits(v: View, a: int, h: Handle)
    requires Layers(v) && LiveH(v, h) && !h.PageH? && a in v.tiny && PageOf(h) == a / PAGE
    requires BlockOf(v, h) == a % PAGE / SlotSize(SmallKind, v.tiny[a].cls + 2)
    ensures h.TinyH? && h.a == a && a + HEADER <= Base(v, h)
  {
    hide Bits, Upto, HeaderSlots;
    assert InSlab(v.slab, a, v.tiny[a].cls);
    assert h.TinyH? ==> InSlab(v.slab, h.a, v.tiny[h.a].cls);
    HeaderSlotsIs(v.tiny[a].cls);
    assert ItemOk(TinyKind, v.tiny[a]);
  }

  lemma HeaderSlotsIs(c: nat)
    ensures 0 in HeaderSlots(TinyKind, c) && (c == 0 ==> 1 in HeaderSlots(TinyKind, c))
  {
    UptoIs(1);
    UptoIs(2);
  }

  // ---------------------------------------------------------------- one handle more

  /** `h` is new, and everything else that is handed out stays where it is. */
  ghost predicate Added(v: View, v': View, h: Handle) {
    && !LiveH(v, h) && LiveH(v', h)
    && forall g :: g != h ==>
      (LiveH(v', g) <==> LiveH(v, g)) && (LiveH(v, g) ==> Base(v', g) == Base(v, g) && Size(v', g) == Size(v, g))
  }

  lemma NotContainer(v: View, p: int, i: nat)
    requires Layers(v) && p in v.slab && i !in Bits(v.slab[p].bm) && i < Slots(SmallKind, v.slab[p].cls)
    ensures SlotAt(p, v.slab[p].cls, i) !in v.tiny
  {
    hide Bits, Upto, Offset, HeaderSlots, Tail;
    var a := SlotAt(p, v.slab[p].cls, i);
    SlotBack(p, v.slab[p].cls, i, 0);
    assert a in v.tiny ==> InSlab(v.slab, a, v.tiny[a].cls);
  }

  /** A clear slot of a slab page is taken. */
  lemma SlabBit(v: View, p: int, i: nat, bm: bv32)
    requires Layers(v) && p in v.slab && i !in Bits(v.slab[p].bm) && Bits(bm) == Bits(v.slab[p].bm) + {i}
    requires i < Slots(SmallKind, v.slab[p].cls) && ItemOk(SmallKind, v.slab[p].(bm := bm))
    ensures var v' := v.(slab := v.slab[p := v.slab[p].(bm := bm)]); Layers(v') && Added(v, v', SmallH(p, i))
  {
    hide Bits, Upto, Offset, HeaderSlots, Tail, SlotAt, BlockLen, SlotSize, Slots, ItemOk;
    NotContainer(v, p, i);
    var v' := v.(slab := v.slab[p := v.slab[p].(bm := bm)]);
    assert Layers(v') by {
      forall a | a in v.tiny ensures InSlab(v'.slab, a, v.tiny[a].cls) {
        assert InSlab(v.slab, a, v.tiny[a].cls);
      }
    }
    hide Layers, InSlab;
    forall g | g != SmallH(p, i)
      ensures (LiveH(v', g) <==> LiveH(v, g)) && Base(v', g) == Base(v, g) && Size(v', g) == Size(v, g)
    {
      match g
      case PageH(_) =>
      case TinyH(_, _) =>
      case SmallH(q, j) =>
        assert q == p && j != i ==> (j in Bits(bm) <==> j in Bits(v.slab[p].bm));
    }
  }

  /** A slot of a slab page is given back, and another one is left. */
  lemma SlabClear(v: View, p: int, i: nat, bm: bv32)
    requires Layers(v) && LiveH(v, SmallH(p, i)) && Bits(bm) == Bits(v.slab[p].bm) - {i}
    requires ItemOk(SmallKind, v.slab[p].(bm := bm))
    ensures var v' := v.(slab := v.slab[p := v.slab[p].(bm := bm)]); Layers(v') && Added(v', v, SmallH(p, i))
  {
    hide Bits, Upto, Offset, HeaderSlots, Tail, SlotAt, BlockLen, SlotSize, Slots, Layers, Added, ItemOk, Base, Size,
         InSlab;
    var v' := v.(slab := v.slab[p := v.slab[p].(bm := bm)]);
    InBlock(v, SmallH(p, i));
    ClearedLayers(v, p, i, bm);
    SlabItem(v, p);
    SlabBit(v', p, i, v.slab[p].bm);
    assert v'.slab[p := v.slab[p]] == v.slab;
  }

  lemma SlabItem(v: View, p: int)
    requires Layers(v) && p in v.slab
    ensures ItemOk(SmallKind, v.slab[p])
  {
  }

  lemma ClearedLayers(v: View, p: int, i: nat, bm: bv32)
    requires Layers(v) && p in v.slab && SlotAt(p, v.slab[p].cls, i) !in v.tiny && Bits(bm) == Bits(v.slab[p].bm) - {i}
    requires ItemOk(SmallKind, v.slab[p].(bm := bm))
    ensures Layers(v.(slab := v.slab[p := v.slab[p].(bm := bm)]))
  {
    hide Bits, Upto, Offset, HeaderSlots, SlotAt, SlotSize, Slots, ItemOk;
    var slab := v.slab[p := v.slab[p].(bm := bm)];
    forall a | a in v.tiny ensures InSlab(slab, a, v.tiny[a].cls) {
      assert InSlab(v.slab, a, v.tiny[a].cls);
    }
  }

  lemma TinyBit(v: View, a: int, i: nat, bm: bv32)
    requires Layers(v) && a in v.tiny && i !in Bits(v.tiny[a].bm) && Bits(bm) == Bits(v.tiny[a].bm) + {i}
    requires ItemOk(TinyKind, v.tiny[a].(bm := bm))
    ensures var v' := v.(tiny := v.tiny[a := v.tiny[a].(bm := bm)]); Layers(v') && Added(v, v', TinyH(a, i))
  {
    hide Bits, Upto, Offset, InSlab, Tail;
    var v' := v.(tiny := v.tiny[a := v.tiny[a].(bm := bm)]);
    assert ItemOk(TinyKind, v.tiny[a]);
  }

  lemma TinyClear(v: View, a: int, i: nat, bm: bv32)
    requires Layers(v) && LiveH(v, TinyH(a, i)) && Bits(bm) == Bits(v.tiny[a].bm) - {i}
    requires ItemOk(TinyKind, v.tiny[a].(bm := bm))
    ensures var v' := v.(tiny := v.tiny[a := v.tiny[a].(bm := bm)]); Layers(v') && Added(v', v, TinyH(a, i))
  {
    hide Bits, Upto, Offset, InSlab, Tail, HeaderSlots;
    var v' := v.(tiny := v.tiny[a := v.tiny[a].(bm := bm)]);
    assert ItemOk(TinyKind, v.tiny[a]);
    TinyBit(v', a, i, v.tiny[a].bm);
    assert v'.tiny[a := v.tiny[a]] == v.tiny;
  }

  /** What was handed out as `h` is handed out as `k`. */
  ghost predicate Swapped(v: View, v': View, h: Handle, k: Handle) {
    && LiveH(v, h) && !LiveH(v', h) && !LiveH(v, k) && LiveH(v', k)
    && forall g :: g != h && g != k ==>
      (LiveH(v', g) <==> LiveH(v, g)) && (LiveH(v, g) ==> Base(v', g) == Base(v, g) && Size(v', g) == Size(v, g))
  }

  lemma AddSwap(v0: View, v1: View, v2: View, h: Handle, k: Handle)
    requires Added(v0, v1, h) && Swapped(v1, v2, h, k)
    ensures Added(v0, v2, k)
  {
    hide LiveH, Base, Size;
  }

  /** A block of a slab page becomes a tiny container with one slot in use. */
  lemma NewTiny(v: View, p: int, b: nat, c: nat, i: nat, bm: bv32)
    requires Layers(v) && LiveH(v, SmallH(p, b)) && v.slab[p].cls == c + 2 && ItemOk(TinyKind, Slab(c, bm))
    requires Bits(bm) == HeaderSlots(TinyKind, c) + {i} && i !in HeaderSlots(TinyKind, c)
    ensures var a := SlotAt(p, c + 2, b);
            var v' := v.(tiny := v.tiny[a := Slab(c, bm)]);
            a !in v.tiny && Layers(v') && Swapped(v, v', SmallH(p, b), TinyH(a, i))
  {
    hide Bits, Upto, HeaderSlots, Tail, BlockLen, SlotSize, Slots, ItemOk, Offset, SlotAt, Layers;
    var a := SlotAt(p, c + 2, b);
    var v' := v.(tiny := v.tiny[a := Slab(c, bm)]);
    InBlock(v, SmallH(p, b));
    SlotBack(p, c + 2, b, 0);
    NewTinyLayers(v, a, Slab(c, bm));
    forall g | g != SmallH(p, b) && g != TinyH(a, i)
      ensures (LiveH(v', g) <==> LiveH(v, g))
        && (LiveH(v, g) ==> Base(v', g) == Base(v, g) && Size(v', g) == Size(v, g))
    {
      match g
      case PageH(_) =>
      case TinyH(_, _) =>
      case SmallH(q, j) =>
        if LiveH(v, g) {
          InBlock(v, g);
          SlotBack(q, v.slab[q].cls, j, 0);
        }
    }
  }

  lemma NewTinyLayers(v: View, a: int, s: Slab)
    requires Layers(v) && ItemOk(TinyKind, s) && InSlab(v.slab, a, s.cls)
    ensures Layers(v.(tiny := v.tiny[a := s]))
  {
    hide InSlab, ItemOk;
  }

  /** The last slot of a tiny container goes, and the block is an ordinary one again. */
  lemma DropTiny(v: View, a: int, i: nat) returns (p: int, b: nat)
    requires Layers(v) && LiveH(v, TinyH(a, i)) && Bits(v.tiny[a].bm) == HeaderSlots(TinyKind, v.tiny[a].cls) + {i}
    ensures p == a / PAGE && p in v.slab && v.slab[p].cls == v.tiny[a].cls + 2
      && a % PAGE == Offset(SmallKind, v.slab[p].cls, b)
    ensures Layers(v.(tiny := v.tiny - {a})) && Swapped(v.(tiny := v.tiny - {a}), v, SmallH(p, b), TinyH(a, i))
  {
    hide Bits, Upto, HeaderSlots, Tail, BlockLen, SlotSize, Slots, Offset, ItemOk;
    var c := v.tiny[a].cls;
    p, b := a / PAGE, a % PAGE / SlotSize(SmallKind, c + 2);
    var v' := v.(tiny := v.tiny - {a});
    assert InSlab(v.slab, a, c) && ItemOk(TinyKind, v.tiny[a]);
    assert Layers(v');
    NewTiny(v', p, b, c, i, v.tiny[a].bm);
    assert v'.tiny[a := v.tiny[a]] == v.tiny;
  }

  // ---------------------------------------------------------------- pages coming and going

  lemma TailSame(page: seq<Page>, page': seq<Page>, x: int)
    requires |page'| == |page|
    requires forall y :: 0 <= y < |page| && (page[y].ty == Cont || page'[y].ty == Cont) ==> page'[y] == page[y]
    ensures Tail(page', x) <==> Tail(page, x)
  {
    hide Pow2;
  }

  lemma SameLen(page: seq<Page>, page': seq<Page>, exc: set<int>, x: int)
    requires SameLive(page, page', exc) && Paired(page) && 0 <= x < |page| && Live(page[x].ty) && x !in exc
    requires page[x].ty == Cont ==> x + Pow2(page[x].ord) !in exc
    ensures BlockLen(page', x) == BlockLen(page, x)
  {
    hide Pow2, Upper;
  }

  lemma DroppedLayers(v: View, p: int, i: nat, page': seq<Page>)
    requires Layers(v) && p in v.slab && SlotAt(p, v.slab[p].cls, i) !in v.tiny && Bits(v.slab[p].bm) == {i}
    requires SameLive(v.page, page', {p}) && !Live(page'[p].ty)
    ensures Layers(View(page', v.slab - {p}, v.tiny))
  {
    hide Bits, Upto, HeaderSlots, SlotSize, Slots, ItemOk, Offset, SlotAt;
    forall a | a in v.tiny ensures InSlab(v.slab - {p}, a, v.tiny[a].cls) {
      assert InSlab(v.slab, a, v.tiny[a].cls);
    }
  }

  /** The last slot of a slab goes, and so does its page. */
  lemma DropSlab(v: View, p: int, i: nat, page': seq<Page>)
    requires Layers(v) && Paired(v.page) && LiveH(v, SmallH(p, i)) && Bits(v.slab[p].bm) == {i}
    requires SameLive(v.page, page', {p}) && !Live(page'[p].ty)
    ensures var v' := View(page', v.slab - {p}, v.tiny);
            Layers(v') && Added(v', v, SmallH(p, i))
  {
    hide Bits, Upto, HeaderSlots, Tail, SlotSize, Slots, ItemOk, InSlab, Offset, SlotAt;
    var v' := View(page', v.slab - {p}, v.tiny);
    DroppedLayers(v, p, i, page');
    assert 0 <= p < |v.page| && v.page[p].ty == Small;
    hide Layers;
    forall g | g != SmallH(p, i)
      ensures (LiveH(v', g) <==> LiveH(v, g))
        && (LiveH(v', g) ==> Base(v', g) == Base(v, g) && Size(v', g) == Size(v, g))
    {
      match g
      case PageH(x) =>
        TailSame(v.page, page', x);
        if LiveH(v, g) {
          SameLen(v.page, page', {p}, x);
        }
      case TinyH(_, _) =>
      case SmallH(_, _) =>
    }
  }

  /** A page turns into a slab with its first slot in use. */
  lemma NewSlab(v: View, p: int, c: nat, bm: bv32, page': seq<Page>)
    requires Layers(v) && Paired(page') && 0 <= p < |v.page| && !Live(v.page[p].ty) && SameLive(v.page, page', {p})
    requires page'[p] == Page(Small, 0) && Bits(bm) == {0} && ItemOk(SmallKind, Slab(c, bm))
    ensures var v' := View(page', v.slab[p := Slab(c, bm)], v.tiny);
            Layers(v') && Added(v, v', SmallH(p, 0)) && p !in v.slab
  {
    hide Bits, Upto, HeaderSlots, Tail, SlotSize, Slots, ItemOk;
    var v' := View(page', v.slab[p := Slab(c, bm)], v.tiny);
    assert Layers(v') by {
      forall a | a in v.tiny ensures InSlab(v'.slab, a, v.tiny[a].cls) {
        assert InSlab(v.slab, a, v.tiny[a].cls);
      }
    }
    assert SlotAt(p, c, 0) !in v.tiny by {
      var a := SlotAt(p, c, 0);
      assert a / PAGE == p;
      assert a in v.tiny ==> InSlab(v.slab, a, v.tiny[a].cls);
    }
    hide Layers, InSlab, Offset, SlotAt;
    DropSlab(v', p, 0, v.page);
    assert p !in v.slab by { NoSlab(v, p); }
    assert v'.slab - {p} == v.slab;
  }

  lemma NoSlab(v: View, p: int)
    requires Layers(v) && 0 <= p < |v.page| && v.page[p].ty != Small
    ensures p !in v.slab
  {
  }

  /** A page allocation. */
  lemma PageAdded(v: View, page': seq<Page>, p: int)
    requires Layers(v) && Paired(v.page) && Paired(page') && 0 <= p < |v.page| && !Live(v.page[p].ty)
    requires |page'| == |v.page| && SameLive(v.page, page', Extent(page', p)) && !Tail(page', p)
    requires InUse(page'[p].ty)
    requires page'[p].ty == Cont ==> !Live(v.page[p + Pow2(page'[p].ord)].ty)
    ensures Layers(v.(page := page')) && Added(v, v.(page := page'), PageH(p))
  {
    hide Bits, Upto, HeaderSlots, SlotSize, Slots, ItemOk, Pow2, Upper, Layers, InSlab, Offset, SlotAt, Tail, BlockLen;
    var v' := v.(page := page');
    PageLayers(v, page', Extent(page', p));
    forall g | g != PageH(p)
      ensures (LiveH(v', g) <==> LiveH(v, g))
        && (LiveH(v, g) ==> Base(v', g) == Base(v, g) && Size(v', g) == Size(v, g))
    {
      match g
      case PageH(x) => PageStays(v.page, page', p, x);
      case TinyH(_, _) =>
      case SmallH(_, _) =>
    }
  }

  lemma PageStays(page: seq<Page>, page': seq<Page>, p: int, x: int)
    requires Paired(page) && Paired(page') && 0 <= p < |page| == |page'| && !Live(page[p].ty) && x != p
    requires SameLive(page, page', Extent(page', p))
    requires InUse(page'[p].ty)
    requires page'[p].ty == Cont ==> !Live(page[p + Pow2(page'[p].ord)].ty)
    ensures LivePage(page', x) <==> LivePage(page, x)
    ensures LivePage(page, x) ==> BlockLen(page', x) == BlockLen(page, x)
  {
    hide Pow2, Upper, Tail, BlockLen;
    if 0 <= x < |page| {
      TailGrows(page, page', p, x);
      if LivePage(page, x) {
        SameLen(page, page', Extent(page', p), x);
      }
    }
  }

  lemma PageLayers(v: View, page': seq<Page>, exc: set<int>)
    requires Layers(v) && SameLive(v.page, page', exc) && |page'| == |v.page|
    requires forall x :: x in exc && 0 <= x < |page'| ==> page'[x].ty != Small && v.page[x].ty != Small
    ensures Layers(v.(page := page'))
  {
    hide InSlab, ItemOk;
  }

  lemma TailGrows(page: seq<Page>, page': seq<Page>, p: int, x: int)
    requires |page'| == |page| && 0 <= p < |page| && page[p].ty != Cont
    requires forall y ::
      0 <= y < |page| && y != p && (page[y].ty == Cont || page'[y].ty == Cont) ==> page'[y] == page[y]
    ensures Tail(page', x) <==> Tail(page, x) || (page'[p].ty == Cont && x == p + Pow2(page'[p].ord))
  {
    hide Pow2;
    if Tail(page, x) {
      var y :| 0 <= y < |page| && page[y].ty == Cont && y + Pow2(page[y].ord) == x;
      assert page'[y] == page[y];
    }
    if page'[p].ty == Cont && x == p + Pow2(page'[p].ord) {
      assert Tail(page', x);
    }
  }
}
