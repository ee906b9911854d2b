/** The path, buffer and limit lists of the AML parser: stacks, one per parse state, that
    share their tails and count the pointers to each cell. */
module SharedStacks {
  import opened List

  const NULL: int := 0

  datatype Cell<T> = Cell(next: int, val: T, ref: int)

  /** Following `next` always leads to older cells. */
  ghost predicate Chained<T(!new)>(cell: map<int, Cell<T>>, rank: map<int, nat>) {
    forall p :: p in cell ==>
      p > NULL && p in rank
        && (cell[p].next == NULL || (cell[p].next in cell && cell[p].next in rank && rank[cell[p].next] < rank[p]))
  }

  ghost function HeadsAt(head: map<int, int>, p: int): set<int> {
    set q | q in head && head[q] == p
  }

  ghost function NextsAt<T(!new)>(cell: map<int, Cell<T>>, p: int): set<int> {
    set x | x in cell && cell[x].next == p
  }

  /** Each count is the number of pointers there are, and no cell is without one. */
  ghost predicate Counted<T(!new)>(cell: map<int, Cell<T>>, head: map<int, int>) {
    && (forall p :: p in cell ==> cell[p].ref == |HeadsAt(head, p)| + |NextsAt(cell, p)| && cell[p].ref > 0)
    && (forall q :: q in head ==> head[q] == NULL || head[q] in cell) && NULL !in cell
  }

  ghost function Chain<T(!new)>(cell: map<int, Cell<T>>, rank: map<int, nat>, p: int): seq<T>
    requires Chained(cell, rank) && (p == NULL || p in cell)
    decreases if p == NULL then 0 else rank[p] + 1
  {
    if p == NULL then [] else [cell[p].val] + Chain(cell, rank, cell[p].next)
  }

  ghost predicate HeadsOk<T(!new)>(cell: map<int, Cell<T>>, head: map<int, int>) {
    forall q :: q in head ==> head[q] == NULL || head[q] in cell
  }

  ghost function ViewOf<T(!new)>(cell: map<int, Cell<T>>, rank: map<int, nat>, head: map<int, int>): map<int, seq<T>>
    requires Chained(cell, rank) && HeadsOk(cell, head)
  {
    map q | q in head :: Chain(cell, rank, head[q])
  }

  /** What a stack holds depends on the values and links of its cells alone. */
  lemma {:induction false} ChainSame<T(!new)>(cell: map<int, Cell<T>>, rank: map<int, nat>, cell': map<int, Cell<T>>,
                                       rank': map<int, nat>, d: int, p: int)
    requires Chained(cell, rank) && Chained(cell', rank') && (p == NULL || (p in cell && p != d))
    requires forall x :: x in cell ==> cell[x].next != d
    requires forall x ::
      x in cell && x != d ==> x in cell' && cell'[x].next == cell[x].next && cell'[x].val == cell[x].val
    requires forall x :: x in cell && x != d ==> x in rank' && rank'[x] == rank[x]
    ensures (p == NULL || p in cell') && Chain(cell', rank', p) == Chain(cell, rank, p)
    decreases if p == NULL then 0 else rank[p] + 1
  {
    if p != NULL {
      ChainSame(cell, rank, cell', rank', d, cell[p].next);
    }
  }

  lemma HeadsMoved(head: map<int, int>, q: int, h: int, p: int)
    ensures HeadsAt(head[q := h], p) == if h == p then HeadsAt(head, p) + {q} else HeadsAt(head, p) - {q}
  {
  }

  lemma HeadsDropped(head: map<int, int>, q: int, p: int)
    ensures HeadsAt(head - {q}, p) == HeadsAt(head, p) - {q}
  {
  }

  lemma NextsAdded<T(!new)>(cell: map<int, Cell<T>>, x: int, c: Cell<T>, p: int)
    requires x !in cell
    ensures NextsAt(cell[x := c], p) == if c.next == p then NextsAt(cell, p) + {x} else NextsAt(cell, p)
    ensures x !in NextsAt(cell, p)
  {
  }

  lemma NextsDropped<T(!new)>(cell: map<int, Cell<T>>, x: int, p: int)
    requires x in cell
    ensures NextsAt(cell - {x}, p) == NextsAt(cell, p) - {x}
    ensures x in NextsAt(cell, p) <==> cell[x].next == p
  {
  }

  lemma NextsSame<T(!new)>(cell: map<int, Cell<T>>, x: int, r: int, p: int)
    requires x in cell
    ensures NextsAt(cell[x := cell[x].(ref := r)], p) == NextsAt(cell, p)
  {
  }

  lemma HeadIn(head: map<int, int>, q: int, p: int)
    ensures q in HeadsAt(head, p) <==> q in head && head[q] == p
  {
  }

  /** A cell to which nothing points. */
  lemma Unpointed<T(!new)>(cell: map<int, Cell<T>>, head: map<int, int>, p: int)
    requires |HeadsAt(head, p)| + |NextsAt(cell, p)| == 0
    ensures forall q :: q in head ==> head[q] != p
    ensures forall x :: x in cell ==> cell[x].next != p
  {
    forall q | q in head ensures head[q] != p {
      assert q !in HeadsAt(head, p);
    }
    forall x | x in cell ensures cell[x].next != p {
      assert x !in NextsAt(cell, p);
    }
  }

  // ---------------------------------------------------------------- one pointer more, one less

  /** A second pointer to the cell that `q` points to. */
  lemma CloneCounted<T(!new)>(cell: map<int, Cell<T>>, head: map<int, int>, q: int, h: int)
    requires Counted(cell, head) && q !in head && (h == NULL || h in cell)
    ensures Counted(if h == NULL then cell else cell[h := cell[h].(ref := cell[h].ref + 1)], head[q := h])
  {
    hide HeadsAt, NextsAt;
    var cell' := if h == NULL then cell else cell[h := cell[h].(ref := cell[h].ref + 1)];
    forall p | p in cell' ensures cell'[p].ref == |HeadsAt(head[q := h], p)| + |NextsAt(cell', p)| && cell'[p].ref > 0 {
      HeadsMoved(head, q, h, p);
      HeadIn(head, q, p);
      if h != NULL {
        NextsSame(cell, h, cell[h].ref + 1, p);
      }
    }
  }

  /** A new cell on top of the stack of `q`. */
  lemma PushCounted<T(!new)>(cell: map<int, Cell<T>>, head: map<int, int>, rank: map<int, nat>, q: int, p0: int, v: T)
    requires Counted(cell, head) && Chained(cell, rank) && q in head && p0 > NULL && p0 !in cell
    ensures Counted(cell[p0 := Cell(head[q], v, 1)], head[q := p0])
  {
    hide HeadsAt, NextsAt;
    var cell', head' := cell[p0 := Cell(head[q], v, 1)], head[q := p0];
    forall p | p in cell' ensures cell'[p].ref == |HeadsAt(head', p)| + |NextsAt(cell', p)| && cell'[p].ref > 0 {
      HeadsMoved(head, q, p0, p);
      HeadIn(head, q, p);
      NextsAdded(cell, p0, Cell(head[q], v, 1), p);
      if p == p0 {
        NoHeads(cell, head, rank, p0);
      }
    }
  }

  lemma NoHeads<T(!new)>(cell: map<int, Cell<T>>, head: map<int, int>, rank: map<int, nat>, p: int)
    requires Counted(cell, head) && Chained(cell, rank) && p !in cell && p > NULL
    ensures HeadsAt(head, p) == {} && NextsAt(cell, p) == {}
  {
    forall x | x in head ensures head[x] != p {}
    forall x | x in cell ensures cell[x].next != p {}
  }

  /** The pointer of `q` goes away. */
  ghost predicate Lost<T(!new)>(cell: map<int, Cell<T>>, head: map<int, int>, q: int) {
    && (forall p :: p in cell ==> cell[p].ref == |HeadsAt(head - {q}, p)| + |NextsAt(cell, p)|)
    && (forall p :: p in cell && (q !in head || p != head[q]) ==> cell[p].ref > 0)
    && (forall x :: x in head ==> head[x] == NULL || head[x] in cell) && NULL !in cell
  }

  lemma LoseCounted<T(!new)>(cell: map<int, Cell<T>>, head: map<int, int>, q: int)
    requires Counted(cell, head) && q in head && head[q] != NULL
    ensures Lost(cell[head[q] := cell[head[q]].(ref := cell[head[q]].ref - 1)], head, q)
  {
    hide HeadsAt, NextsAt;
    var h := head[q];
    var cell' := cell[h := cell[h].(ref := cell[h].ref - 1)];
    forall p | p in cell' ensures cell'[p].ref == |HeadsAt(head - {q}, p)| + |NextsAt(cell', p)| {
      HeadsDropped(head, q, p);
      HeadIn(head, q, p);
      NextsSame(cell, h, cell[h].ref - 1, p);
    }
  }

  /** The cell was shared: it stays, and so does everything below it. */
  lemma KeepCounted<T(!new)>(cell: map<int, Cell<T>>, head: map<int, int>, q: int)
    requires Lost(cell, head, q) && q in head && (head[q] == NULL || cell[head[q]].ref > 0)
    ensures Counted(cell, head - {q})
  {
  }

  /** The cell was not shared: it goes, and its link becomes the pointer of `q`. */
  lemma FreeCounted<T(!new)>(cell: map<int, Cell<T>>, head: map<int, int>, rank: map<int, nat>, q: int)
    requires Lost(cell, head, q) && Chained(cell, rank) && q in head && head[q] != NULL && cell[head[q]].ref == 0
    ensures var h := head[q];
            && Counted(cell - {h}, head[q := cell[h].next]) && Chained(cell - {h}, rank)
            && (forall x :: x in cell ==> cell[x].next != h) && (forall x :: x in head && x != q ==> head[x] != h)
  {
    hide HeadsAt, NextsAt;
    var h := head[q];
    var n, cell' := cell[h].next, cell - {h};
    var head' := head[q := n];
    Unpointed(cell, head - {q}, h);
    forall x | x in head && x != q ensures head[x] != h {
      assert x in head - {q};
    }
    forall p | p in cell' ensures cell'[p].ref == |HeadsAt(head', p)| + |NextsAt(cell', p)| && cell'[p].ref > 0 {
      HeadsDropped(head, q, p);
      HeadsMoved(head, q, n, p);
      NextsDropped(cell, h, p);
    }
  }

  /** Without a stack left there is no cell left. */
  lemma AllGone<T(!new)>(cell: map<int, Cell<T>>, rank: map<int, nat>)
    requires Chained(cell, rank) && Counted(cell, map[])
    ensures cell == map[]
  {
    forall p | p in cell ensures false {
      var y := Youngest(cell, rank, p, cell.Keys);
      NothingAt(cell, rank, y);
    }
    assert cell.Keys == {};
  }

  lemma NothingAt<T(!new)>(cell: map<int, Cell<T>>, rank: map<int, nat>, y: int)
    requires Chained(cell, rank) && y in cell && forall x :: x in cell ==> rank[x] <= rank[y]
    ensures HeadsAt(map[], y) == {} && NextsAt(cell, y) == {}
  {
    forall x | x in cell ensures cell[x].next != y {}
  }

  lemma {:induction false} Youngest<T(!new)>(cell: map<int, Cell<T>>, rank: map<int, nat>, p: int, rest: set<int>)
    returns (y: int)
    requires Chained(cell, rank) && p in cell && rest <= cell.Keys
    ensures y in cell && rank[p] <= rank[y] && forall x :: x in rest ==> rank[x] <= rank[y]
    decreases |rest|
  {
    if x: int :| x in rest {
      y := Youngest(cell, rank, if rank[x] > rank[p] then x else p, rest - {x});
      assert forall z :: z in rest ==> z == x || z in rest - {x};
    } else {
      y := p;
    }
  }

  class Stacks<T(!new)> {
    var cell: map<int, Cell<T>>
    var head: map<int, int>
    ghost var rank: map<int, nat>
    ghost var time: nat

    ghost predicate Valid()
      reads this
    {
      Chained(cell, rank) && Counted(cell, head) && forall p :: p in cell ==> rank[p] < time
    }

    /** The contents of every stack. */
    ghost function View(): map<int, seq<T>>
      requires Valid()
      reads this
    {
      CountedHeads(cell, head);
      ViewOf(cell, rank, head)
    }

    lemma Keys()
      requires Valid()
      ensures View().Keys == head.Keys
    {
    }

    constructor ()
      ensures Valid() && View() == map[] && fresh(this)
    {
      cell, head, rank, time := map[], map[], map[], 0;
    }

    method New(q: int)
      requires Valid() && q !in View()
      modifies this
      ensures Valid() && View() == old(View())[q := []]
    {
      hide Counted, Chained, Chain;
      ghost var head0 := head;
      CountedHeads(cell, head);
      CloneCounted(cell, head, q, NULL);
      head := head[q := NULL];
      CloneView(cell, rank, head0, q, NULL, cell);
    }

    /** A copy of a stack shares all its cells. */
    method Clone(q: int, r: int)
      requires Valid() && q in View() && r !in View()
      modifies this
      ensures Valid() && View() == old(View())[r := old(View())[q]]
    {
      hide Counted, Chained, Chain;
      ghost var cell0, head0 := cell, head;
      CountedHeads(cell, head);
      CloneCounted(cell, head, r, head[q]);
      Recounted(cell, rank, head, head[q], 1);
      head := head[r := head[q]];
      var h := head[r];
      if h != NULL {
        cell := cell[h := cell[h].(ref := cell[h].ref + 1)];
      }
      CloneView(cell0, rank, head0, r, h, cell);
    }

    /** `addpathlist`, `addbuflist`, `pushpkgend` */
    method Push(q: int, v: T)
      requires Valid() && q in View()
      modifies this
      ensures Valid() && View() == old(View())[q := [v] + old(View())[q]]
    {
      hide Counted, Chained, Chain;
      ghost var cell0, rank0, head0 := cell, rank, head;
      CountedHeads(cell, head);
      ghost var w := FreshAbove(cell.Keys);
      assert w !in cell && w > NULL;
      var p :| p !in cell && p > NULL;
      PushCounted(cell, head, rank, q, p, v);
      InRank(cell, rank);
      PushView(cell, rank, head, q, p, v, time);
      rank, time := rank[p := time], time + 1;
      cell := cell[p := Cell(head[q], v, 1)];
      head := head[q := p];
    }

    method IsEmpty(q: int) returns (b: bool)
      requires Valid() && q in View()
      ensures b <==> View()[q] == []
    {
      b := head[q] == NULL;
    }

    method Peek(q: int) returns (v: T)
      requires Valid() && q in View() && View()[q] != []
      ensures v == View()[q][0]
    {
      v := cell[head[q]].val;
    }

    /** The elements of a stack, from the top on. */
    method Read(q: int) returns (s: seq<T>)
      requires Valid() && q in View()
      ensures s == View()[q]
    {
      CountedHeads(cell, head);
      var p := head[q];
      s := [];
      while p != NULL
        invariant (p == NULL || p in cell) && View()[q] == s + Chain(cell, rank, p)
        decreases if p == NULL then 0 else rank[p] + 1
      {
        s := s + [cell[p].val];
        p := cell[p].next;
      }
    }

    /** The removal of the top element, as `poppkgend` does it and `parsemain` for the
        other two lists. */
    method Pop(q: int) returns (v: T)
      requires Valid() && q in View() && View()[q] != []
      modifies this
      ensures Valid() && v == old(View())[q][0] && View() == old(View())[q := old(View())[q][1..]]
    {
      hide Counted, Lost, Chained, Chain;
      ghost var head0 := head;
      CountedHeads(cell, head);
      TopCell(cell, rank, head[q]);
      var h := head[q];
      v := cell[h].val;
      assert v == View()[q][0];
      hide ViewOf;
      var n := cell[h].next;
      LoseCounted(cell, head, q);
      Recounted(cell, rank, head, h, -1);
      cell := cell[h := cell[h].(ref := cell[h].ref - 1)];
      ghost var cell1 := cell;
      TopCell(cell, rank, h);
      if cell[h].ref == 0 {
        FreeCounted(cell, head, rank, q);
        head := head[q := n];
        cell := cell - {h};
        FreeView(cell1, rank, head0, q, cell);
      } else {
        LostRef(cell, head, q);
        KeepCounted(cell, head, q);
        CloneCounted(cell, head - {q}, q, n);
        Recounted(cell, rank, head, n, 1);
        assert (head - {q})[q := n] == head[q := n];
        head := head[q := n];
        if n != NULL {
          cell := cell[n := cell[n].(ref := cell[n].ref + 1)];
        }
        PopView(cell1, rank, head0, q, cell);
      }
    }

    /** One round of the loop of `Drop`: the pointer of `q` lets go of its cell. */
    method DropTop(q: int) returns (done: bool)
      requires Valid() && q in head && head[q] != NULL
      modifies this
      ensures Valid() && (done ==> View() == old(View()) - {q})
      ensures !done ==> q in head && |cell| < old(|cell|) && View() - {q} == old(View()) - {q}
    {
      hide Counted, Lost, Chained, Chain;
      CountedHeads(cell, head);
      ghost var head0 := head;
      var h := head[q];
      LoseCounted(cell, head, q);
      Recounted(cell, rank, head, h, -1);
      cell := cell[h := cell[h].(ref := cell[h].ref - 1)];
      ghost var cell1 := cell;
      done := cell[h].ref != 0;
      if done {
        LostRef(cell, head, q);
        KeepCounted(cell, head, q);
        DropView(cell, rank, head, q, cell);
        head := head - {q};
      } else {
        FreeCounted(cell, head, rank, q);
        head := head[q := cell[h].next];
        cell := cell - {h};
        FreeView(cell1, rank, head0, q, cell);
      }
    }

    /** `parsefreepathlist`, `parsefreebuflist`, `parsefreelimitlist` */
    method Drop(q: int)
      requires Valid() && q in View()
      modifies this
      ensures Valid() && View() == old(View()) - {q}
    {
      hide Counted, Chained, Chain;
      ghost var view := View();
      CountedHeads(cell, head);
      assert q in head;
      while head[q] != NULL
        invariant Valid() && q in head && View() - {q} == view - {q}
        decreases |cell|
      {
        var done := DropTop(q);
        if done {
          return;
        }
      }
      NullCounted(cell, head, q);
      CountedHeads(cell, head);
      DropView(cell, rank, head, q, cell);
      head := head - {q};
    }
  }

  lemma CountedHeads<T(!new)>(cell: map<int, Cell<T>>, head: map<int, int>)
    requires Counted(cell, head)
    ensures HeadsOk(cell, head) && NULL !in cell
  {
  }

  lemma NullCounted<T(!new)>(cell: map<int, Cell<T>>, head: map<int, int>, q: int)
    requires Counted(cell, head) && q in head && head[q] == NULL
    ensures Counted(cell, head - {q})
  {
    forall p | p in cell ensures HeadsAt(head - {q}, p) == HeadsAt(head, p) {
      HeadsDropped(head, q, p);
    }
  }

  lemma TopCell<T(!new)>(cell: map<int, Cell<T>>, rank: map<int, nat>, p: int)
    requires Chained(cell, rank) && (p == NULL || p in cell) && Chain(cell, rank, p) != []
    ensures p in cell && p != NULL && (cell[p].next == NULL || cell[p].next in cell)
    ensures Chain(cell, rank, p) == [cell[p].val] + Chain(cell, rank, cell[p].next)
  {
  }

  lemma LostRef<T(!new)>(cell: map<int, Cell<T>>, head: map<int, int>, q: int)
    requires Lost(cell, head, q) && q in head && head[q] != NULL
    ensures cell[head[q]].ref >= 0
  {
  }

  // ---------------------------------------------------------------- contents

  /** Counts do not matter to what the stacks hold. */
  lemma Recounted<T(!new)>(cell: map<int, Cell<T>>, rank: map<int, nat>, head: map<int, int>, h: int, d: int)
    requires Chained(cell, rank) && HeadsOk(cell, head) && (h == NULL || h in cell)
    ensures h != NULL ==>
      var cell' := cell[h := cell[h].(ref := cell[h].ref + d)];
      && Chained(cell', rank) && HeadsOk(cell', head) && ViewOf(cell', rank, head) == ViewOf(cell, rank, head)
        && SameLinks(cell, cell', -1)
  {
    if h != NULL {
      var cell' := cell[h := cell[h].(ref := cell[h].ref + d)];
      forall x | x in head ensures (head[x] == NULL || head[x] in cell')
        && Chain(cell', rank, head[x]) == Chain(cell, rank, head[x]) {
        SameChain(cell, rank, cell', -1, head[x]);
      }
    }
  }

  lemma InRank<T(!new)>(cell: map<int, Cell<T>>, rank: map<int, nat>)
    requires Chained(cell, rank)
    ensures forall p :: p in cell ==> p in rank
  {
  }

  ghost predicate SameLinks<T(!new)>(cell: map<int, Cell<T>>, cell': map<int, Cell<T>>, d: int) {
    forall x :: x in cell && x != d ==> x in cell' && cell'[x].next == cell[x].next && cell'[x].val == cell[x].val
  }

  lemma SameChain<T(!new)>(cell: map<int, Cell<T>>, rank: map<int, nat>, cell': map<int, Cell<T>>, d: int, p: int)
    requires Chained(cell, rank) && Chained(cell', rank) && SameLinks(cell, cell', d)
      && (p == NULL || (p in cell && p != d))
    requires d == -1 || forall x :: x in cell ==> cell[x].next != d
    ensures (p == NULL || p in cell') && Chain(cell', rank, p) == Chain(cell, rank, p)
  {
    ChainSame(cell, rank, cell', rank, d, p);
  }

  lemma CloneView<T(!new)>(cell: map<int, Cell<T>>, rank: map<int, nat>, head: map<int, int>, r: int, h: int,
                    cell': map<int, Cell<T>>)
    requires Chained(cell, rank) && Chained(cell', rank) && HeadsOk(cell, head) && (h == NULL || h in cell)
      && SameLinks(cell, cell', -1)
    ensures HeadsOk(cell', head[r := h])
      && ViewOf(cell', rank, head[r := h]) == ViewOf(cell, rank, head)[r := Chain(cell, rank, h)]
    ensures h == NULL ==> Chain(cell, rank, h) == []
  {
    hide Chained, Chain, SameLinks;
    NullChain(cell, rank);
    SameViews(cell, rank, head[r := h], cell');
  }

  lemma NullChain<T(!new)>(cell: map<int, Cell<T>>, rank: map<int, nat>)
    requires Chained(cell, rank)
    ensures Chain(cell, rank, NULL) == []
  {
  }

  lemma SameViews<T(!new)>(cell: map<int, Cell<T>>, rank: map<int, nat>, head: map<int, int>, cell': map<int, Cell<T>>)
    requires Chained(cell, rank) && Chained(cell', rank) && HeadsOk(cell, head) && SameLinks(cell, cell', -1)
    ensures HeadsOk(cell', head) && ViewOf(cell', rank, head) == ViewOf(cell, rank, head)
  {
    forall x | x in head ensures (head[x] == NULL || head[x] in cell')
      && Chain(cell', rank, head[x]) == Chain(cell, rank, head[x]) {
      SameChain(cell, rank, cell', -1, head[x]);
    }
  }

  lemma PushChained<T(!new)>(cell: map<int, Cell<T>>, rank: map<int, nat>, h: int, p0: int, v: T, time: nat)
    requires Chained(cell, rank) && (h == NULL || h in cell) && p0 !in cell && p0 > NULL
    requires forall p :: p in cell ==> p in rank && rank[p] < time
    ensures Chained(cell[p0 := Cell(h, v, 1)], rank[p0 := time])
  {
  }

  lemma PushChain<T(!new)>(cell: map<int, Cell<T>>, rank: map<int, nat>, h: int, p0: int, v: T, time: nat, x: int)
    requires Chained(cell, rank) && (h == NULL || h in cell) && p0 !in cell && p0 > NULL && (x == NULL || x in cell)
    requires Chained(cell[p0 := Cell(h, v, 1)], rank[p0 := time])
    ensures Chain(cell[p0 := Cell(h, v, 1)], rank[p0 := time], x) == Chain(cell, rank, x)
  {
    ChainSame(cell, rank, cell[p0 := Cell(h, v, 1)], rank[p0 := time], -1, x);
  }

  lemma PushView<T(!new)>(cell: map<int, Cell<T>>, rank: map<int, nat>, head: map<int, int>, q: int, p0: int, v: T,
                   time: nat)
    requires Chained(cell, rank) && HeadsOk(cell, head) && q in head && p0 !in cell && p0 > NULL
    requires forall p :: p in cell ==> p in rank && rank[p] < time
    ensures var cell', rank', head' := cell[p0 := Cell(head[q], v, 1)], rank[p0 := time], head[q := p0];
            && Chained(cell', rank') && HeadsOk(cell', head')
            && ViewOf(cell', rank', head') == ViewOf(cell, rank, head)[q := [v] + Chain(cell, rank, head[q])]
  {
    hide Chained;
    var cell', rank', head' := cell[p0 := Cell(head[q], v, 1)], rank[p0 := time], head[q := p0];
    PushChained(cell, rank, head[q], p0, v, time);
    forall x | x in head ensures (head[x] == NULL || head[x] in cell')
      && Chain(cell', rank', head[x]) == Chain(cell, rank, head[x]) {
      PushChain(cell, rank, head[q], p0, v, time, head[x]);
    }
    assert Chain(cell', rank', p0) == [v] + Chain(cell', rank', head[q]);
  }

  /** The top of a shared stack comes off. */
  lemma PopView<T(!new)>(cell: map<int, Cell<T>>, rank: map<int, nat>, head: map<int, int>, q: int, cell': map<int,
                  Cell<T>>)
    requires Chained(cell, rank) && Chained(cell', rank) && HeadsOk(cell, head) && q in head && head[q] != NULL
    requires SameLinks(cell, cell', -1)
    ensures HeadsOk(cell', head[q := cell[head[q]].next])
    ensures ViewOf(cell', rank, head[q := cell[head[q]].next])
      == ViewOf(cell, rank, head)[q := Chain(cell, rank, cell[head[q]].next)]
  {
    var head' := head[q := cell[head[q]].next];
    forall x | x in head ensures (head'[x] == NULL || head'[x] in cell')
      && Chain(cell', rank, head'[x]) == Chain(cell, rank, head'[x]) {
      SameChain(cell, rank, cell', -1, head'[x]);
    }
  }

  /** The top of a stack that shares it with no one comes off. */
  lemma FreeView<T(!new)>(cell: map<int, Cell<T>>, rank: map<int, nat>, head: map<int, int>, q: int, cell': map<int,
                   Cell<T>>)
    requires Chained(cell, rank) && Chained(cell', rank) && HeadsOk(cell, head) && q in head && head[q] != NULL
    requires SameLinks(cell, cell', head[q]) && forall x :: x in head && x != q ==> head[x] != head[q]
    requires forall x :: x in cell ==> cell[x].next != head[q]
    ensures HeadsOk(cell', head[q := cell[head[q]].next])
    ensures ViewOf(cell', rank, head[q := cell[head[q]].next])
      == ViewOf(cell, rank, head)[q := Chain(cell, rank, cell[head[q]].next)]
  {
    var head' := head[q := cell[head[q]].next];
    forall x | x in head ensures (head'[x] == NULL || head'[x] in cell')
      && Chain(cell', rank, head'[x]) == Chain(cell, rank, head'[x]) {
      SameChain(cell, rank, cell', head[q], head'[x]);
    }
  }

  lemma DropView<T(!new)>(cell: map<int, Cell<T>>, rank: map<int, nat>, head: map<int, int>, q: int, cell': map<int,
                   Cell<T>>)
    requires Chained(cell, rank) && Chained(cell', rank) && HeadsOk(cell, head) && SameLinks(cell, cell', -1)
    ensures HeadsOk(cell', head - {q}) && ViewOf(cell', rank, head - {q}) == ViewOf(cell, rank, head) - {q}
  {
    forall x | x in head ensures (head[x] == NULL || head[x] in cell')
      && Chain(cell', rank, head[x]) == Chain(cell, rank, head[x]) {
      SameChain(cell, rank, cell', -1, head[x]);
    }
  }
}
