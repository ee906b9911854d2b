/** What slabs and tiny containers have in common: a usage map per item, and a list per size
    class that holds exactly the items with a slot to spare. */
module SlabCache {
  import opened Bitmap
  import opened List

  datatype Kind = SmallKind | TinyKind

  datatype Slab = Slab(cls: nat, bm: bv32)

  function Classes(kind: Kind): nat {
    if kind == SmallKind then 5 else 3
  }

  /** `SMALL_ALLOCSIZE` and `TINY_ALLOCSIZE` */
  function SlotSize(kind: Kind, c: nat): (n: nat)
    ensures n > 0
  {
    match kind
    case SmallKind => if c == 0 then 128 else if c == 1 then 256 else if c == 2 then 512 else if c == 3 then 1024
      else 2048
    case TinyKind => if c == 0 then 16 else if c == 1 then 32 else 64
  }

  /** The number of slots of an item. */
  function Slots(kind: Kind, c: nat): (n: nat)
    ensures 0 < n <= 32
  {
    match kind
    case SmallKind => if c == 0 then 32 else if c == 1 then 16 else if c == 2 then 8 else if c == 3 then 4 else 2
    case TinyKind => 32
  }

  /** The slots that the item's own header takes up. */
  function Header(kind: Kind, c: nat): bv32 {
    if kind == SmallKind then 0 else if c == 0 then 3 else 1
  }

  ghost function HeaderSlots(kind: Kind, c: nat): set<nat> {
    Upto(if kind == SmallKind then 0 else if c == 0 then 2 else 1)
  }

  lemma HeaderIs(kind: Kind, c: nat)
    ensures Bits(Header(kind, c)) == HeaderSlots(kind, c)
  {
    hide Bits;
    if kind == SmallKind {
      NoBit();
    } else {
      assert Header(kind, c) == Full(if c == 0 then 2 else 1);
      FullIs(Header(kind, c), if c == 0 then 2 else 1);
    }
  }

  ghost predicate ItemOk(kind: Kind, s: Slab) {
    s.cls < Classes(kind) && HeaderSlots(kind, s.cls) < Bits(s.bm) <= Upto(Slots(kind, s.cls))
  }

  /** The item has a slot to spare. */
  ghost predicate Partly(kind: Kind, items: map<int, Slab>, c: nat, a: int) {
    a in items && items[a].cls == c && Bits(items[a].bm) != Upto(Slots(kind, c))
  }

  ghost predicate ListOk(kind: Kind, items: map<int, Slab>, c: nat, l: seq<int>) {
    Distinct(l) && forall a :: a in l <==> Partly(kind, items, c, a)
  }

  ghost predicate CacheOk(kind: Kind, items: map<int, Slab>, free: seq<seq<int>>) {
    && |free| == Classes(kind)
    && (forall a :: a in items ==> ItemOk(kind, items[a]))
    && (forall c :: 0 <= c < Classes(kind) ==> ListOk(kind, items, c, free[c]))
  }

  /** An item whose map changes is on its list afterwards exactly when it has a slot to
      spare. */
  lemma ListKeeps(kind: Kind, items: map<int, Slab>, items': map<int, Slab>, c: nat, l: seq<int>, a: int)
    requires ListOk(kind, items, c, l)
    requires forall b :: b != a ==> (Partly(kind, items', c, b) <==> Partly(kind, items, c, b))
    ensures Partly(kind, items', c, a) == Partly(kind, items, c, a) ==> ListOk(kind, items', c, l)
    ensures Partly(kind, items', c, a) && !Partly(kind, items, c, a) ==> ListOk(kind, items', c, [a] + l)
    ensures !Partly(kind, items', c, a) && Partly(kind, items, c, a) ==> a in l && ListOk(kind, items', c, Del(l, a))
  {
    hide Partly, Del;
    if Partly(kind, items, c, a) {
      DelIs(l, a);
    }
  }

  /** The list of class `c` after the item `a` of that class has changed. */
  function Relist(l: seq<int>, a: int, was: bool, now: bool): seq<int>
    requires was && !now ==> a in l
  {
    if was == now then l else if now then [a] + l else Del(l, a)
  }

  lemma ChangeOk(kind: Kind, items: map<int, Slab>, free: seq<seq<int>>, items': map<int, Slab>, a: int, c: nat)
    requires CacheOk(kind, items, free) && c < Classes(kind)
    requires items'.Keys + {a} == items.Keys + {a}
      && forall b :: b in items && b != a ==> b in items' && items'[b] == items[b]
    requires a in items ==> items[a].cls == c
    requires a in items' ==> items'[a].cls == c && ItemOk(kind, items'[a])
    ensures var was, now := Partly(kind, items, c, a), Partly(kind, items', c, a);
            && (was && !now ==> a in free[c])
            && CacheOk(kind, items', free[c := Relist(free[c], a, was, now)])
  {
    hide ListOk, ItemOk, Bits, Upto, Del;
    forall b | b != a ensures b in items <==> b in items' {
      assert b in items.Keys + {a} <==> b in items'.Keys + {a};
    }
    forall o | 0 <= o < Classes(kind)
      ensures forall b :: b != a ==> (Partly(kind, items', o, b) <==> Partly(kind, items, o, b))
      ensures o != c ==> !Partly(kind, items', o, a) && !Partly(kind, items, o, a) {}
    ListKeeps(kind, items, items', c, free[c], a);
    forall o | 0 <= o < Classes(kind) && o != c ensures ListOk(kind, items', o, free[o]) {
      ListKeeps(kind, items, items', o, free[o], a);
    }
  }

  // ---------------------------------------------------------------- one slot more, one slot less

  /** The lowest clear slot of an item with one to spare. */
  lemma SpareSlot(kind: Kind, s: Slab) returns (i: nat)
    requires ItemOk(kind, s) && Bits(s.bm) != Upto(Slots(kind, s.cls))
    ensures i < 32 && i < Slots(kind, s.cls) && i !in Bits(s.bm) && FindNextBit(s.bm) == One(i)
    ensures Bits(Or(s.bm, One(i))) == Bits(s.bm) + {i} && ItemOk(kind, s.(bm := Or(s.bm, One(i))))
  {
    hide One, And, Or, FindNextBit, Bits, Upto;
    var n := Slots(kind, s.cls);
    UptoIs(n);
    UptoIs(32);
    FullIs(s.bm, 32);
    FullWord();
    i := FindsClear(s.bm);
    var j: nat :| j in Upto(n) && j !in Bits(s.bm);
    assert i <= j;
    OrBits(s.bm, i);
  }

  lemma FullWord()
    ensures Full(32) == 0xFFFF_FFFF
  {
  }

  /** Giving a slot back leaves the item in order unless only its header is left. */
  lemma GivenSlot(kind: Kind, s: Slab, i: nat)
    requires ItemOk(kind, s) && i < 32 && i in Bits(s.bm) && i !in HeaderSlots(kind, s.cls)
    ensures Bits(Xor(s.bm, One(i))) == Bits(s.bm) - {i}
    ensures HeaderSlots(kind, s.cls) <= Bits(Xor(s.bm, One(i))) && Bits(Xor(s.bm, One(i))) != Upto(Slots(kind, s.cls))
    ensures Bits(Xor(s.bm, One(i))) != HeaderSlots(kind, s.cls) ==> ItemOk(kind, s.(bm := Xor(s.bm, One(i))))
  {
    hide One, Xor, Bits, Upto, HeaderSlots;
    XorBits(s.bm, i);
  }
}
