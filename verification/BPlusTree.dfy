/** The B+ tree in memory: `bplus_tree.c`, node by node. */
module BPlus {
  import opened List
  import opened BPlusModel
  import opened BPlusStore
  import opened BPlusArrays
  import opened BPlusHeld
  import opened BPlusSearch
  import opened BPlusReport

  datatype Err = Ok | AddDup | AddInvKey | AddNonleafChildren | DelErr | DelInvKey | DelNotExist

  class BPlusTree {
    const limit: nat
    var root: Ptr
    var node: Nodes
    var link: Links

    ghost var tree: Tree
    ghost var height: nat

    ghost function M(): Mem
      reads this
    {
      Mem(node, link, root)
    }

    /** The memory holds exactly the nodes of `tree`, which is balanced and ordered. */
    ghost predicate Valid()
      reads this
    {
      && 2 <= limit <= 6
      && Held(M(), limit, Top, tree) && Bal(tree, height, limit, RootMin(tree))
      && Sorted(Items(tree)) && ValidKeys(Items(tree))
    }

    ghost function Map(): map<Key, Val>
      reads this
    {
      Contents(Items(tree))
    }

    constructor (n: nat)
      requires 2 <= n <= 6
      ensures Valid() && limit == n && Map() == map[] && tree.Leaf?
    {
      limit, root, node, link := n, NULL, map[], map[];
      new;
      root := NodeAlloc(true);
      tree, height := Leaf(root, [], []), 0;
      assert node.Keys == {root};
    }

    /** `bplus_node_add_kvc` on a leaf. */
    method AddToLeaf(p: Ptr, key: Key, val: Val, ghost ks: seq<Key>, ghost vs: seq<Val>, ghost at: nat)
      returns (err: Err)
      requires |vs| == |ks| <= limit && p in node && node[p] == LeafNode(limit, ks, vs)
      requires INVALID_KEY !in ks && key != INVALID_KEY && Slot(ks, key, at)
      modifies this`node
      ensures key !in ks ==>
        && err == Ok
        && node == old(node)[p := LeafNode(limit, InsertAt(ks, at, key), InsertAt(vs, at, val))]
      ensures key in ks ==>
        && err == AddDup
        && node == old(node)[p := old(node)[p].(keys := Opened(ks, at + 1, limit + 1, INVALID_KEY),
                                                vals := Opened(vs, at + 1, limit + 1, NULL))]
    {
      hide Opened, Pad, InsertAt;
      var n, keys, vals := node[p].n, node[p].keys, node[p].vals;
      var idx, i, found := n, n as int, false;
      OpenedNone(ks, n, limit + 1, INVALID_KEY);
      OpenedNone(vs, n, limit + 1, NULL);
      while !found && 0 <= i <= n
        invariant -1 <= i <= n && 0 <= idx <= n && node == old(node)
        invariant !found ==> idx == if i == n then n else i + 1
        invariant found ==> idx > 0 && ks[idx - 1] < key
        invariant keys == Opened(ks, idx, limit + 1, INVALID_KEY) && vals == Opened(vs, idx, limit + 1, NULL)
        invariant idx < n ==> key < ks[idx]
        decreases i, !found
      {
        OpenedAt(ks, idx, limit + 1, INVALID_KEY, i);
        OpenedAt(vs, idx, limit + 1, NULL, i);
        if keys[i] == INVALID_KEY {
          idx := i;
        } else if keys[i] == key {
          SlotUnique(ks, key, at, i);
          node := node[p := node[p].(keys := keys, vals := vals)];
          return AddDup;
        } else if keys[i] < key {
          found := true;
        } else {
          OpenedStep(ks, idx, limit + 1, INVALID_KEY);
          OpenedStep(vs, idx, limit + 1, NULL);
          keys := keys[i + 1 := keys[i]];
          vals := vals[i + 1 := vals[i]];
          idx := i;
        }
        i := i - 1;
      }
      SlotUnique(ks, key, at, idx);
      OpenedInsert(ks, at, limit + 1, INVALID_KEY, key);
      OpenedInsert(vs, at, limit + 1, NULL, val);
      keys := keys[idx := key];
      vals := vals[idx := val];
      node := node[p := node[p].(n := n + 1, keys := keys, vals := vals)];
      err := Ok;
    }

    /** `bplus_node_add_kvc` on an inner node: the child in slot `at` gives way to `left`
        and `right`, with `key` between them. */
    method AddToInner(p: Ptr, key: Key, left: Ptr, right: Ptr, ghost ks: seq<Key>, ghost cs: seq<Ptr>, ghost at: nat)
      returns (err: Err)
      requires |ks| <= limit && p in node && node[p] == InnerNode(limit, ks, cs) && LinkedKids(link, p, cs)
      requires INVALID_KEY !in ks && key != INVALID_KEY && Slot(ks, key, at) && key !in ks
      requires |cs| == |ks| + 1 || cs == ks == []
      requires left in link && right in link && right != left && right !in cs
      requires forall j :: 0 <= j < |cs| && j != at ==> cs[j] != left
      modifies this`node, this`link
      ensures left == NULL || right == NULL ==>
        err == AddNonleafChildren && link == old(link) && node == old(node)
      ensures left != NULL && right != NULL ==>
        && err == Ok && node == old(node)[p := InnerNode(limit, InsertAt(ks, at, key), Forked(cs, at, left, right))]
        && LinkedKids(link, p, Forked(cs, at, left, right)) && OnlyRelinks(old(link), link, Forked(cs, at, left, right))
    {
      hide Opened, Pad, InsertAt, Forked, Moved, LinkedKids, OnlyRelinks;
      if left == NULL || right == NULL {
        return AddNonleafChildren;
      }
      var n, keys, children := node[p].n, node[p].keys, node[p].children;
      var idx, i, found := n, n as int, false;
      OpenedNone(ks, n, limit + 1, INVALID_KEY);
      OpenedNone(cs, n + 1, limit + 2, NULL);
      MovedNone(link, p, cs, n, 1);
      while !found && 0 <= i <= n
        invariant -1 <= i <= n && 0 <= idx <= n && node == old(node)
        invariant !found ==> idx == if i == n then n else i + 1
        invariant found ==> idx > 0 && ks[idx - 1] < key
        invariant keys == Opened(ks, idx, limit + 1, INVALID_KEY) && children == Opened(cs, idx + 1, limit + 2, NULL)
        invariant idx < n ==> key < ks[idx]
        invariant link == Moved(old(link), cs, idx, 1)
        decreases i, !found
      {
        OpenedAt(ks, idx, limit + 1, INVALID_KEY, i);
        if keys[i] == INVALID_KEY {
          idx := i;
        } else if keys[i] == key {
          return AddDup;
        } else if keys[i] < key {
          found := true;
        } else {
          OpenedStep(ks, idx, limit + 1, INVALID_KEY);
          OpenedStep(cs, idx + 1, limit + 2, NULL);
          OpenedAt(cs, idx + 1, limit + 2, NULL, idx);
          MovedStep(old(link), p, cs, idx, 1);
          keys := keys[i + 1 := keys[i]];
          var c := children[i + 1];
          link := link[c := link[c].(childIdx := i + 2)];
          children := children[i + 2 := c];
          idx := i;
        }
        i := i - 1;
      }
      SlotUnique(ks, key, at, idx);
      OpenedInsert(ks, at, limit + 1, INVALID_KEY, key);
      OpenedFork(cs, at, limit + 2, left, right);
      MovedFork(old(link), p, cs, at, left, right);
      keys := keys[idx := key];
      children := children[idx := left][idx + 1 := right];
      link := link[left := Link(p, idx)][right := Link(p, idx + 1)];
      node := node[p := node[p].(n := n + 1, keys := keys, children := children)];
      err := Ok;
    }

    method NodeAlloc(leaf: bool) returns (p: Ptr)
      modifies this`node, this`link
      ensures p !in old(node) && p !in old(link) && p != NULL
      ensures node == old(node)[p := if leaf then LeafNode(limit, [], []) else InnerNode(limit, [], [])]
      ensures link == old(link)[p := UNLINKED]
    {
      ghost var w := FreshAbove(node.Keys + link.Keys);
      assert w !in node && w !in link;
      p :| p !in node && p !in link && p != NULL;
      node := node[p := if leaf then LeafNode(limit, [], []) else InnerNode(limit, [], [])];
      link := link[p := UNLINKED];
    }

    /** `bplus_node_split` of an overfull leaf: the upper half moves to a new leaf. */
    method SplitLeaf(left: Ptr, ghost ks: seq<Key>, ghost vs: seq<Val>) returns (right: Ptr, keyForParent: Key)
      requires |vs| == |ks| == limit + 1 && left in node && node[left] == LeafNode(limit, ks, vs)
      modifies this`node, this`link
      ensures var mid := (limit + 1) / 2;
        && keyForParent == ks[mid] && right !in old(node) && right !in old(link) && right != NULL
        && node == old(node)[left := LeafNode(limit, ks[..mid], vs[..mid])][right :=
          LeafNode(limit, ks[mid..], vs[mid..])]
        && link == old(link)[right := UNLINKED]
    {
      hide Pad, Blanked, Copied;
      right := NodeAlloc(true);
      var n, keys, vals := node[left].n, node[left].keys, node[left].vals;
      var nNew, kNew, vNew := 0, node[right].keys, node[right].vals;
      var mid := n / 2;
      PadFull(ks, limit + 1, INVALID_KEY);
      PadFull(vs, limit + 1, NULL);
      keyForParent := keys[mid];
      BlankedNone(ks, mid, INVALID_KEY);
      BlankedNone(vs, mid, NULL);
      CopiedNone(ks, mid, limit + 1, INVALID_KEY);
      CopiedNone(vs, mid, limit + 1, NULL);
      var i, srcI := 0, mid;
      while i < limit + 1 - mid
        invariant i <= limit + 1 - mid && srcI == mid + i && nNew == i && n == limit + 1 - i
        invariant keys == Blanked(ks, mid, i, INVALID_KEY) && vals == Blanked(vs, mid, i, NULL)
        invariant kNew == Copied(ks, mid, i, limit + 1, INVALID_KEY) && vNew == Copied(vs, mid, i, limit + 1, NULL)
        invariant node == old(node)[right := LeafNode(limit, [], [])] && link == old(link)[right := UNLINKED]
      {
        BlankedStep(ks, mid, i, INVALID_KEY);
        BlankedStep(vs, mid, i, NULL);
        CopiedStep(ks, mid, i, limit + 1, INVALID_KEY);
        CopiedStep(vs, mid, i, limit + 1, NULL);
        kNew := kNew[i := keys[srcI]];
        keys := keys[srcI := INVALID_KEY];
        vNew := vNew[i := vals[srcI]];
        vals := vals[srcI := NULL];
        nNew, n := nNew + 1, n - 1;
        i, srcI := i + 1, srcI + 1;
      }
      BlankedDone(ks, mid, limit + 1, INVALID_KEY);
      BlankedDone(vs, mid, limit + 1, NULL);
      CopiedAll(ks, mid, limit + 1, INVALID_KEY);
      CopiedAll(vs, mid, limit + 1, NULL);
      node := node[left := node[left].(n := n, keys := keys, vals := vals)];
      node := node[right := node[right].(n := nNew, keys := kNew, vals := vNew)];
    }

    /** The copying loop of `bplus_node_split` for an inner node: keys and children after
        the middle key leave the arrays of the old node for those of `right`. */
    method MoveUpperHalf(right: Ptr, keys0: seq<Key>, children0: seq<Ptr>, mid: nat, kNew0: seq<Key>, cNew0: seq<Ptr>)
      returns (keys: seq<Key>, children: seq<Ptr>, kNew: seq<Key>, cNew: seq<Ptr>)
      requires |children0| == |keys0| + 1 == limit + 2 && mid < limit
      requires kNew0 == Pad([], limit + 1, INVALID_KEY) && cNew0 == Pad([], limit + 2, NULL)
      modifies this`link
      ensures keys == Pad(keys0[..mid], limit + 1, INVALID_KEY)
        && children == Pad(children0[..mid + 1], limit + 2, NULL)
      ensures kNew == Pad(keys0[mid + 1..], limit + 1, INVALID_KEY)
        && cNew == Pad(children0[mid + 1..], limit + 2, NULL)
      ensures link == Adopted(old(link), right, children0[mid + 1..])
    {
      hide *;
      BlankedNone(keys0, mid, INVALID_KEY);
      BlankedStep(keys0, mid, 0, INVALID_KEY);
      BlankedNone(children0, mid + 1, NULL);
      CopiedNone(keys0, mid + 1, limit + 1, INVALID_KEY);
      CopiedNone(children0, mid + 1, limit + 2, NULL);
      AdoptingNone(link, right, children0, mid + 1);
      keys, children, kNew, cNew := keys0[mid := INVALID_KEY], children0, kNew0, cNew0;
      var i, srcI := 0, mid + 1;
      while i < limit - mid
        invariant i <= limit - mid && srcI == mid + 1 + i
        invariant keys == Blanked(keys0, mid, 1 + i, INVALID_KEY) && children == Blanked(children0, mid + 1, i, NULL)
        invariant kNew == Copied(keys0, mid + 1, i, limit + 1, INVALID_KEY)
        invariant cNew == Copied(children0, mid + 1, i, limit + 2, NULL)
        invariant link == Adopting(old(link), right, children0, mid + 1, i)
      {
        BlankedStep(keys0, mid, 1 + i, INVALID_KEY);
        BlankedStep(children0, mid + 1, i, NULL);
        CopiedStep(keys0, mid + 1, i, limit + 1, INVALID_KEY);
        CopiedStep(children0, mid + 1, i, limit + 2, NULL);
        AdoptingStep(old(link), right, children0, mid + 1, i);
        kNew := kNew[i := keys[srcI]];
        keys := keys[srcI := INVALID_KEY];
        cNew := cNew[i := children[srcI]];
        link := link[children[srcI] := Link(right, i)];
        children := children[srcI := NULL];
        i, srcI := i + 1, srcI + 1;
      }
      BlankedStep(children0, mid + 1, i, NULL);
      CopiedStep(children0, mid + 1, i, limit + 2, NULL);
      AdoptingStep(old(link), right, children0, mid + 1, i);
      cNew := cNew[i := children[srcI]];
      link := link[children[srcI] := Link(right, i)];
      children := children[srcI := NULL];
      PadFull(keys0, limit + 1, INVALID_KEY);
      PadFull(children0, limit + 2, NULL);
      BlankedDone(keys0, mid, limit + 1, INVALID_KEY);
      BlankedDone(children0, mid + 1, limit + 2, NULL);
      CopiedAll(keys0, mid + 1, limit + 1, INVALID_KEY);
      CopiedAll(children0, mid + 1, limit + 2, NULL);
      AdoptingAll(old(link), right, children0, mid + 1);
    }

    /** `bplus_node_split` of an overfull inner node: the middle key goes up, the keys and
        children right of it move to a new node. */
    method SplitInner(left: Ptr, ghost ks: seq<Key>, ghost cs: seq<Ptr>) returns (right: Ptr, keyForParent: Key)
      requires |cs| == |ks| + 1 == limit + 2 && left in node && node[left] == InnerNode(limit, ks, cs) && limit >= 2
      modifies this`node, this`link
      ensures var mid := (limit + 1) / 2;
        && keyForParent == ks[mid] && right !in old(node) && right !in old(link) && right != NULL
        && node == old(node)[left := InnerNode(limit, ks[..mid], cs[..mid + 1])]
                            [right := InnerNode(limit, ks[mid + 1..], cs[mid + 1..])]
        && link == Adopted(old(link)[right := UNLINKED], right, cs[mid + 1..])
    {
      hide Pad, Adopted;
      right := NodeAlloc(false);
      var n, keys, children := node[left].n, node[left].keys, node[left].children;
      var mid := n / 2;
      PadFull(ks, limit + 1, INVALID_KEY);
      PadFull(cs, limit + 2, NULL);
      keyForParent := keys[mid];
      var kNew, cNew;
      keys, children, kNew, cNew := MoveUpperHalf(right, keys, children, mid, node[right].keys, node[right].children);
      node := node[left := node[left].(n := mid, keys := keys, children := children)];
      node := node[right := node[right].(n := n - mid - 1, keys := kNew, children := cNew)];
    }

    /** `bplus_parent_add_children` at the root: a new root takes the two halves. */
    method GrowRoot(key: Key, left: Ptr, right: Ptr, ghost tl: Tree, ghost tr: Tree, ghost h: nat)
      returns (err: Err, ghost t: Tree)
      requires limit >= 2 && HeldPair(M(), limit, Top, tl, tr) && left == tl.p && right == tr.p
      requires Bal(tl, h, limit, limit / 2) && Bal(tr, h, limit, limit / 2)
      requires Sorted(PairItems(Top, tl, key, tr)) && ValidKeys(PairItems(Top, tl, key, tr))
      modifies this
      ensures err == Ok && Held(M(), limit, Top, t) && Items(t) == PairItems(Top, tl, key, tr)
        && Bal(t, h + 1, limit, 1)
    {
      hide Held, HeldPair, InnerNode, PairItems, Items, Sorted, BalKids, LinkedKids, OnlyRelinks, Forked, Roots,
           InsertAt, ValidKeys, Shape;
      ghost var m := M();
      NewRootReady(m, limit, tl, key, tr);
      root := NodeAlloc(false);
      EmptyNode(link, root, key, left, right);
      err := AddToInner(root, key, left, right, [], [], 0);
      assert node == m.node[root := InnerNode(limit, [key], [left, right])];
      NewRootHeld(m, limit, tl, key, tr, root, link);
      NewRoot(root, tl, key, tr, h, limit);
      t := Inner(root, [key], [tl, tr]);
    }

    /** `bplus_parent_add_children`: the node above gets the two halves, and may now be too full. */
    method HangPair(parent: Ptr, key: Key, left: Ptr, right: Ptr, ghost c: Ctx, ghost tl: Tree, ghost tr: Tree,
                    ghost h: nat)
      returns (err: Err, ghost t: Tree)
      requires limit >= 2 && HeldPair(M(), limit, c, tl, tr) && left == tl.p && right == tr.p && c.Hole?
        && parent == c.p
      requires BalCtx(c, h, limit) && Bal(tl, h, limit, limit / 2) && Bal(tr, h, limit, limit / 2)
      requires ProperCtx(c) && Sorted(PairItems(c, tl, key, tr)) && ValidKeys(PairItems(c, tl, key, tr))
      modifies this`node, this`link
      ensures err == Ok && t == ForkedTree(c, tl, key, tr) && t.p == parent && Held(M(), limit, c.up, t)
      ensures |t.ks| == |c.ks| + 1 && BalKids(t, h + 1, limit) && ProperCtx(c.up)
      ensures Before(c.up) + Items(t) + After(c.up) == PairItems(c, tl, key, tr)
      ensures parent in node && node[parent] == InnerNode(limit, t.ks, Roots(t.kids)) && node[parent].n == |t.ks|
      ensures |Roots(t.kids)| == |t.kids| == |t.ks| + 1
    {
      hide Held, HeldPair, InnerNode, PairItems, Items, Before, After, Sorted, BalKids, LinkedKids, OnlyRelinks,
           Forked, Roots, InsertAt, CtxKids, Adopted, ValidKeys, Shape;
      ghost var m := M();
      ForkReady(m, limit, c, tl, key, tr, h);
      err := AddToInner(parent, key, left, right, c.ks, CtxKids(c, left), |c.ls|);
      ForkHeld(m, limit, c, tl, key, tr, link);
      t := ForkedTree(c, tl, key, tr);
      ForkedBal(c, tl, key, tr, h, limit);
      ForkedItems(c, tl, key, tr);
      HeldInner(M(), limit, c.up, t, h + 1);
    }

    /** `bplus_parent_add_children`: hang two subtrees below the node above them, splitting
        upwards as long as that node overflows. */
    method ParentAddChildren(parent: Ptr, key: Key, left: Ptr, right: Ptr,
                             ghost c: Ctx, ghost tl: Tree, ghost tr: Tree, ghost h: nat)
      returns (err: Err, ghost t: Tree, ghost height: nat)
      requires limit >= 2 && HeldPair(M(), limit, c, tl, tr) && left == tl.p && right == tr.p
      requires parent == ParentOf(c)
      requires BalCtx(c, h, limit) && Bal(tl, h, limit, limit / 2) && Bal(tr, h, limit, limit / 2)
      requires ProperCtx(c) && Sorted(PairItems(c, tl, key, tr)) && ValidKeys(PairItems(c, tl, key, tr))
      modifies this
      ensures err == Ok && Held(M(), limit, Top, t) && Items(t) == PairItems(c, tl, key, tr) && Bal(t, height, limit, 1)
      decreases c
    {
      hide Held, HeldPair, InnerNode, PairItems, Items, Before, After, Sorted, BalKids, LinkedKids, OnlyRelinks,
           Forked, Roots, InsertAt, CtxKids, Adopted, ValidKeys, Shape;
      ghost var m := M();
      PairUp(m, limit, c, tl, tr, h);
      if parent == NULL {
        err, t := GrowRoot(key, left, right, tl, tr, h);
        height := h + 1;
        return;
      }
      err, t := HangPair(parent, key, left, right, c, tl, tr, h);
      if node[parent].n <= limit {
        Settled(M(), limit, c.up, t, h + 1);
        height := h + 1 + Depth(c.up);
        t := Plug(c.up, t);
        return;
      }
      var newRight, keyForParent;
      ghost var l, r;
      newRight, keyForParent, l, r := SplitParent(parent, c.up, t, h + 1);
      err, t, height := ParentAddChildren(link[parent].parent, keyForParent, parent, newRight, c.up, l, r, h + 1);
    }

    /** `bplus_parent_add_children`: a node above that has become too full is split in turn. */
    method SplitParent(target: Ptr, ghost c: Ctx, ghost t: Tree, ghost h: nat)
      returns (newRight: Ptr, keyForParent: Key, ghost l: Tree, ghost r: Tree)
      requires limit >= 2 && Held(M(), limit, c, t) && t.Inner? && target == t.p && |t.ks| == limit + 1
        && |t.kids| == limit + 2
      requires target in node && node[target] == InnerNode(limit, t.ks, Roots(t.kids)) && |Roots(t.kids)| == |t.kids|
      requires BalCtx(c, h, limit) && BalKids(t, h, limit) && ProperCtx(c) && Sorted(Whole(c, t))
        && ValidKeys(Whole(c, t))
      modifies this
      ensures HeldPair(M(), limit, c, l, r) && l.p == target && r.p == newRight
      ensures target in link && link[target].parent == ParentOf(c)
      ensures Bal(l, h, limit, limit / 2) && Bal(r, h, limit, limit / 2)
        && PairItems(c, l, keyForParent, r) == Whole(c, t)
    {
      hide Held, HeldPair, InnerNode, PairItems, Items, Before, After, Sorted, BalKids, LinkedKids, Roots, Adopted,
           ValidKeys, Shape;
      ghost var m, mid := M(), (limit + 1) / 2;
      newRight, keyForParent := SplitInner(target, t.ks, Roots(t.kids));
      InnerSplitHeld(m, limit, c, t, newRight, mid);
      SplitStep(c, t, newRight, h, limit);
      l, r := Inner(t.p, t.ks[..mid], t.kids[..mid + 1]), Inner(newRight, t.ks[mid + 1..], t.kids[mid + 1..]);
      PairUp(M(), limit, c, l, r, h);
    }

    /** The memory can be searched, although it may not hold a tree. */
    ghost predicate Searchable()
      reads this
    {
      Descends(node, root, height)
    }

    /** What a search for `key` finds. */
    ghost function Visible(key: Key): Result
      requires Searchable()
      reads this
    {
      Seen(node, root, key, height)
    }

    lemma ValidSearchable(key: Key)
      requires Valid()
      ensures Searchable() && Visible(key) == Lookup(Map(), key)
    {
      SeenMap(M(), limit, tree, height, key);
    }

    /** `bplus_node_leaf_search` */
    method LeafSearch(p: Ptr, key: Key, ghost h: nat) returns (leaf: Ptr)
      requires Descends(node, p, h)
      ensures leaf == LeafFor(node, p, key, h)
      decreases h
    {
      if node[p].leaf {
        return p;
      }
      var keys, n := node[p].keys, node[p].n;
      var i := 0;
      while i < n
        invariant i <= n && forall j :: 0 <= j < i ==> keys[j] <= key
      {
        if keys[i] > key {
          break;
        }
        i := i + 1;
      }
      ChildUnique(keys[..n], key, i);
      leaf := LeafSearch(node[p].children[i], key, h - 1);
    }

    /** `bplus_tree_search` */
    method Search(key: Key) returns (found: bool, val: Val)
      requires Searchable() && 0 <= key <= INVALID_KEY
      ensures Visible(key) == if found then Found(val) else Missing
      ensures Valid() ==> (found <==> key in Map()) && (found ==> val == Map()[key])
    {
      hide Valid, Descends;
      var leaf := LeafSearch(root, key, height);
      found, val := false, NULL;
      var i := 0;
      while i < node[leaf].n
        invariant i <= node[leaf].n && !found && forall j :: 0 <= j < i ==> node[leaf].keys[j] != key
      {
        if node[leaf].keys[i] == key {
          IndexUnique(node[leaf].keys[..node[leaf].n], key, i);
          found, val := true, node[leaf].vals[i];
          break;
        }
        i := i + 1;
      }
      if Valid() {
        ValidSearchable(key);
      }
    }

    /** `bplus_tree_add` */
    method Add(key: Key, val: Val) returns (err: Err)
      requires Valid() && 0 <= key <= INVALID_KEY
      modifies this
      ensures key == INVALID_KEY ==> err == AddInvKey && Valid() && M() == old(M()) && Map() == old(Map())
      ensures key < INVALID_KEY && key !in old(Map()) ==> err == Ok && Valid() && Map() == old(Map())[key := val]
      ensures key < INVALID_KEY && key in old(Map()) ==>
        && err == AddDup
        && (EndsLeaf(Items(old(tree)), key) ==> Valid() && M() == old(M()) && Map() == old(Map()))
        && (!EndsLeaf(Items(old(tree)), key) ==> forall u :: !Held(M(), limit, Top, u))
        && Searchable()
        && forall k :: Visible(k) == if Drops(Items(old(tree)), key, k) then Missing else Lookup(old(Map()), k)
      ensures key < INVALID_KEY && key !in old(Map()) && old(tree).Leaf? && |old(tree).ks| < limit ==> tree.Leaf?
    {
      hide Held, HeldPair, Sorted, Items, BalKids, Contents, EntrySet, LeafNode, Located, Before, After, InsertAt,
           Opened, PairItems, Plug, EndsLeaf, Drops, Descends, LeafFor, Seen;
      if key == INVALID_KEY {
        return AddInvKey;
      }
      TopWhole(tree, key);
      TreeDescends(M(), limit, tree, height);
      var leaf := LeafSearch(root, key, height);
      ghost var c, t := Leads(M(), limit, Top, tree, key, height);
      ghost var m, s := M(), Whole(c, t);
      LeafReady(m, limit, c, t);
      ghost var at := FindSlot(t, key);
      LeafDecides(c, t, key);
      err := AddToLeaf(leaf, key, val, t.ks, t.vs, at);
      if err != Ok {
        DupHeld(m, M(), limit, c, t, at);
        EndsLeafAt(c, t, at);
        DupSeen(m, M(), limit, tree, height, c, t, at, key);
        forall k ensures Searchable()
          && Visible(k) == if Drops(Items(tree), key, k) then Missing else Lookup(Map(), k) {
          DupSeen(m, M(), limit, tree, height, c, t, at, k);
        }
        return;
      }
      LeafHeld(m, limit, c, t, InsertAt(t.ks, at, key), InsertAt(t.vs, at, val));
      InsertLeaf(c, t, key, val, at);
      GrownLeaf(t, key, val, at, limit, MinKeys(c, t, limit));
      t := Leaf(t.p, InsertAt(t.ks, at, key), InsertAt(t.vs, at, val));
      InsertContents(s, Whole(c, t), key, val);
      err := SplitIfFull(leaf, c, t);
    }

    /** `bplus_tree_add`, once the entry is in its leaf. */
    method SplitIfFull(leaf: Ptr, ghost c: Ctx, ghost t: Tree) returns (err: Err)
      requires 2 <= limit <= 6 && Held(M(), limit, c, t) && leaf == t.p && t.Leaf? && BalCtx(c, 0, limit)
      requires |t.vs| == |t.ks| <= limit + 1 && (c.Hole? ==> limit / 2 <= |t.ks|)
      requires ProperCtx(c) && Sorted(Whole(c, t)) && ValidKeys(Whole(c, t))
      modifies this
      ensures err == Ok && Valid() && Map() == Contents(Whole(c, t)) && (c == Top && |t.ks| <= limit ==> tree == t)
    {
      hide Held, HeldPair, Sorted, Items, Contents, EntrySet, LeafNode, Before, After, PairItems, Plug;
      HeldLeaf(M(), limit, c, t);
      LeafFields(limit, t.ks, t.vs);
      if node[leaf].n > limit {
        ghost var m, s := M(), Whole(c, t);
        var newLeaf, keyForParent := SplitLeaf(leaf, t.ks, t.vs);
        ghost var mid := (limit + 1) / 2;
        ghost var l, u := Leaf(t.p, t.ks[..mid], t.vs[..mid]), Leaf(newLeaf, t.ks[mid..], t.vs[mid..]);
        LeafSplitHeld(m, limit, c, t, newLeaf, l.ks, l.vs, u.ks, u.vs);
        SplitLeafStep(c, t, newLeaf, limit);
        assert Entry(t.ks[mid], t.vs[mid]) in s;
        SameEntriesSameContents(s, PairItems(c, l, keyForParent, u));
        PairUp(M(), limit, c, l, u, 0);
        err, tree, height := ParentAddChildren(link[leaf].parent, keyForParent, leaf, newLeaf, c, l, u, 0);
      } else {
        Settled(M(), limit, c, t, 0);
        PlugTop(t);
        tree, height := Plug(c, t), Depth(c);
        err := Ok;
      }
    }

    /** `bplus_node_rm_idx_kvc` on a leaf, up to the repair of the separator above it. */
    method RemoveFromLeaf(p: Ptr, idx: nat, ghost ks: seq<Key>, ghost vs: seq<Val>) returns (k: Key, v: Val)
      requires |vs| == |ks| <= limit && p in node && node[p] == LeafNode(limit, ks, vs) && idx < |ks|
      modifies this`node
      ensures node == old(node)[p := LeafNode(limit, RemoveAt(ks, idx), RemoveAt(vs, idx))]
      ensures k == ks[idx] && v == vs[idx]
    {
      hide Pad, Closing, RemoveAt;
      var n, keys, vals := node[p].n, node[p].keys, node[p].vals;
      PadAt(ks, limit + 1, INVALID_KEY, idx);
      PadAt(vs, limit + 1, NULL, idx);
      ghost var keys0, vals0 := keys, vals;
      k, v := keys[idx], vals[idx];
      ClosingNone(keys, idx);
      ClosingNone(vals, idx);
      var i := idx;
      while i < n - 1
        invariant idx <= i <= n - 1 && node == old(node)
        invariant keys == Closing(keys0, idx, i) && vals == Closing(vals0, idx, i)
      {
        ClosingStep(keys0, idx, i);
        ClosingStep(vals0, idx, i);
        keys := keys[i := keys[i + 1]];
        vals := vals[i := vals[i + 1]];
        i := i + 1;
      }
      ClosingDone(ks, idx, limit + 1, INVALID_KEY);
      ClosingDone(vs, idx, limit + 1, NULL);
      keys := keys[i := INVALID_KEY];
      vals := vals[i := NULL];
      node := node[p := node[p].(n := n - 1, keys := keys, vals := vals)];
    }

    /** `bplus_node_rm_idx_kvc` on an inner node: a key and the child right of it go. */
    method RemoveFromInner(p: Ptr, idx: nat, ghost ks: seq<Key>, ghost cs: seq<Ptr>) returns (k: Key, right: Ptr)
      requires |cs| == |ks| + 1 <= limit + 1 && p in node && node[p] == InnerNode(limit, ks, cs) && idx < |ks|
      requires LinkedKids(link, p, cs) && Linked(node, link)
      modifies this`node, this`link
      ensures node == old(node)[p := InnerNode(limit, RemoveAt(ks, idx), RemoveAt(cs, idx + 1))]
      ensures LinkedKids(link, p, RemoveAt(cs, idx + 1)) && OnlyRelinks(old(link), link, RemoveAt(cs, idx + 1))
      ensures k == ks[idx] && right == cs[idx + 1] && right in link && link[right] == Link(p, idx + 1)
      ensures Linked(node, link)
    {
      hide Pad, Closing, RemoveAt, Lowered, LinkedKids, OnlyRelinks, Linked;
      var n, keys, children := node[p].n, node[p].keys, node[p].children;
      PadAt(ks, limit + 1, INVALID_KEY, idx);
      PadAt(cs, limit + 2, NULL, idx + 1);
      ghost var keys0, children0 := keys, children;
      k, right := keys[idx], children[idx + 1];
      ClosingNone(keys, idx);
      ClosingNone(children, idx + 1);
      LoweredNone(link, cs, idx + 1);
      var i := idx;
      while i < n - 1
        invariant idx <= i <= n - 1 && node == old(node)
        invariant keys == Closing(keys0, idx, i) && children == Closing(children0, idx + 1, i + 1)
        invariant link == Lowered(old(link), cs, idx + 1, i + 1)
      {
        ClosingStep(keys0, idx, i);
        ClosingStep(children0, idx + 1, i + 1);
        LoweredStep(old(link), p, cs, idx + 1, i + 1);
        PadAt(cs, limit + 2, NULL, i + 2);
        keys := keys[i := keys[i + 1]];
        var c := children[i + 2];
        link := link[c := link[c].(childIdx := i + 1)];
        children := children[i + 1 := c];
        i := i + 1;
      }
      ClosingDone(ks, idx, limit + 1, INVALID_KEY);
      ClosingDone(cs, idx + 1, limit + 2, NULL);
      LoweredDone(old(link), p, cs, idx + 1);
      RemovedSubset(cs, idx + 1);
      KidsParent(old(link), p, cs);
      LinkedUpdate(node, old(link), link, limit, p, RemoveAt(ks, idx), RemoveAt(cs, idx + 1));
      keys := keys[i := INVALID_KEY];
      children := children[i + 1 := NULL];
      node := node[p := node[p].(n := n - 1, keys := keys, children := children)];
    }

    /** `bplus_node_propagate_replaced_key`: climb while the path is the leftmost one, then
        replace the separator. */
    method PropagateReplacedKey(parent: Ptr, childIdx: int, key: Key, ghost c: Ctx, ghost hole: Ptr,
                                ghost rest: multiset<Ptr>)
      requires Sound(M()) && CtxShape(node, limit, c, hole) && RootPtr(c, hole) == root
      requires CtxPtrs(c) + rest == multiset(node.Keys) && ProperCtx(c)
      requires parent == ParentOf(c) && (c.Hole? ==> childIdx == |c.ls|)
      modifies this`node
      ensures Sound(M()) && CtxShape(node, limit, SetSep(c, key), hole)
      ensures node.Keys == old(node.Keys) && SameOn(old(node), node, rest)
    {
      hide Shape, PtrsOf, InnerNode, Linked;
      var p, i := parent, childIdx;
      ghost var d, x := c, hole;
      PathUp(M(), limit, c, hole);
      while p != NULL
        invariant p == ParentOf(d) && (d.Hole? ==> i == |d.ls|)
        invariant d.Hole? ==> d.p in node && d.p in link && d.p != NULL
        invariant CtxShape(node, limit, d, x) && RootPtr(d, x) == root && SepOwner(d) == SepOwner(c) && ProperCtx(d)
        invariant node == old(node)
        decreases d
      {
        if i > 0 {
          SetSepShape(node, limit, c, hole, key, rest);
          LinkedKeys(node, link, p, node[p].keys[i - 1 := key]);
          node := node[p := node[p].(keys := node[p].keys[i - 1 := key])];
          return;
        }
        UpLink(M(), limit, d.up, d.p);
        PathUp(M(), limit, d.up, d.p);
        i := link[p].childIdx;
        p := link[p].parent;
        d, x := d.up, d.p;
      }
      SetSepShape(node, limit, c, hole, key, rest);
    }

    /** `bplus_node_append_kvc` on an inner node; `dead` is the node that is being emptied. */
    method AppendToInner(p: Ptr, key: Key, right: Ptr, ghost ks: seq<Key>, ghost cs: seq<Ptr>, ghost dead: set<Ptr>)
      requires |cs| == |ks| + 1 <= limit + 1 && p in node && node[p] == InnerNode(limit, ks, cs) && p !in dead
      requires LinkedKids(link, p, cs) && Linked(node - dead, link)
      requires right in link && right !in cs && right != NULL && !Attached(node - dead, link, right)
      modifies this`node, this`link
      ensures node == old(node)[p := InnerNode(limit, ks + [key], cs + [right])]
      ensures link == old(link)[right := Link(p, |cs|)]
      ensures LinkedKids(link, p, cs + [right]) && Linked(node - dead, link)
    {
      hide Pad, Linked, Attached;
      var last := node[p].n;
      PadAppend(ks, limit + 1, INVALID_KEY, key);
      PadAppend(cs, limit + 2, NULL, right);
      ghost var link' := link[right := Link(p, |cs|)];
      LinkedUpdate(node - dead, link, link', limit, p, ks + [key], cs + [right]);
      ghost var nd := InnerNode(limit, ks + [key], cs + [right]);
      assert node[p := nd] - dead == (node - dead)[p := nd];
      var keys, children := node[p].keys[last := key], node[p].children[last + 1 := right];
      link := link[right := Link(p, last + 1)];
      node := node[p := node[p].(n := last + 1, keys := keys, children := children)];
    }

    /** `bplus_node_prepend_kvc` on an inner node. */
    method PrependToInner(p: Ptr, key: Key, left: Ptr, ghost ks: seq<Key>, ghost cs: seq<Ptr>)
      requires |cs| == |ks| + 1 <= limit + 1 && p in node && node[p] == InnerNode(limit, ks, cs)
      requires LinkedKids(link, p, cs) && Linked(node, link)
      requires left in link && left !in cs && left != NULL && !Attached(node, link, left)
      modifies this`node, this`link
      ensures node == old(node)[p := InnerNode(limit, [key] + ks, [left] + cs)] && link.Keys == old(link).Keys
      ensures forall x :: x in old(link) && x !in [left] + cs ==> link[x] == old(link)[x]
      ensures LinkedKids(link, p, [left] + cs) && Linked(node, link)
    {
      hide Pad, Linked, Attached, Opened, Moved, InsertAt, LinkedKids;
      var n, keys, children := node[p].n, node[p].keys, node[p].children;
      OpenedNone(ks, n, limit + 1, INVALID_KEY);
      OpenedNone(cs, n + 1, limit + 2, NULL);
      MovedNone(link, p, cs, n, 1);
      var i, childI := n, n + 1;
      while i >= 1
        invariant 0 <= i <= n && childI == i + 1 && node == old(node)
        invariant keys == Opened(ks, i, limit + 1, INVALID_KEY) && children == Opened(cs, i + 1, limit + 2, NULL)
        invariant link == Moved(old(link), cs, i, 1)
      {
        OpenedStep(ks, i, limit + 1, INVALID_KEY);
        OpenedStep(cs, i + 1, limit + 2, NULL);
        OpenedAt(cs, i + 1, limit + 2, NULL, i);
        MovedStep(old(link), p, cs, i, 1);
        keys := keys[i := keys[i - 1]];
        var c := children[childI - 1];
        link := link[c := link[c].(childIdx := childI)];
        children := children[childI := c];
        i, childI := i - 1, childI - 1;
      }
      OpenedStep(cs, 1, limit + 2, NULL);
      OpenedAt(cs, 1, limit + 2, NULL, 0);
      MovedStep(old(link), p, cs, 0, 1);
      var c := children[childI - 1];
      link := link[c := link[c].(childIdx := childI)];
      children := children[childI := c];
      OpenedInsert(ks, 0, limit + 1, INVALID_KEY, key);
      OpenedInsert(cs, 0, limit + 2, NULL, left);
      InsertFront(ks, key);
      InsertFront(cs, left);
      MovedFront(old(link), p, cs, left);
      keys := keys[0 := key];
      link := link[left := Link(p, 0)];
      children := children[0 := left];
      KidsParent(old(link), p, cs);
      LinkedUpdate(node, old(link), link, limit, p, [key] + ks, [left] + cs);
      node := node[p := node[p].(n := n + 1, keys := keys, children := children)];
    }

    /** `bplus_node_cut_tail` on an inner node. */
    method CutTailInner(p: Ptr, ghost ks: seq<Key>, ghost cs: seq<Ptr>) returns (k: Key, right: Ptr)
      requires |cs| == |ks| + 1 <= limit + 1 && ks != [] && p in node && node[p] == InnerNode(limit, ks, cs)
      requires LinkedKids(link, p, cs) && Linked(node, link) && NULL !in cs
      modifies this`node, this`link
      ensures node == old(node)[p := InnerNode(limit, ks[..|ks| - 1], cs[..|ks|])] && link.Keys == old(link).Keys
      ensures forall x :: x in old(link) && x !in cs ==> link[x] == old(link)[x]
      ensures k == ks[|ks| - 1] && right == cs[|ks|] && right in link && !Attached(node, link, right)
        && Linked(node, link)
    {
      hide Pad, Linked, RemoveAt;
      RemoveLast(ks);
      RemoveLast(cs);
      k, right := RemoveFromInner(p, node[p].n - 1, ks, cs);
      PadAt(cs[..|ks|], limit + 2, NULL, |ks|);
    }

    /** `bplus_node_cut_head` on an inner node. */
    method CutHeadInner(p: Ptr, ghost ks: seq<Key>, ghost cs: seq<Ptr>) returns (k: Key, leftmost: Ptr)
      requires |cs| == |ks| + 1 <= limit + 1 && ks != [] && p in node && node[p] == InnerNode(limit, ks, cs)
      requires LinkedKids(link, p, cs) && Linked(node, link) && NULL !in cs
      modifies this`node, this`link
      ensures node == old(node)[p := InnerNode(limit, ks[1..], cs[1..])] && link.Keys == old(link).Keys
      ensures forall x :: x in old(link) && x !in cs ==> link[x] == old(link)[x]
      ensures k == ks[0] && leftmost == cs[0] && leftmost in link && !Attached(node, link, leftmost)
        && Linked(node, link)
    {
      hide Linked, RemoveAt, LinkedKids, Attached, InnerNode, OnlyRelinks;
      InnerFields(limit, ks, cs);
      PadAt(cs, limit + 2, NULL, 0);
      leftmost := node[p].children[0];
      var right;
      RemoveSecond(ks, cs);
      k, right := RemoveFromInner(p, 0, ks, cs);
      InnerFields(limit, ks[1..], [cs[0]] + cs[2..]);
      CutHead(old(node), old(link), node, link, limit, p, ks, cs);
      node := node[p := node[p].(children := node[p].children[0 := right])];
      if right != NULL {
        link := link[right := link[right].(childIdx := 0)];
      }
    }

    /** `bplus_node_append_kvc` on a leaf; the first entry of a leaf becomes the separator
        in front of it. */
    method AppendToLeaf(p: Ptr, key: Key, val: Val, ghost ks: seq<Key>, ghost vs: seq<Val>, ghost c: Ctx,
                        ghost rest: multiset<Ptr>)
      requires |vs| == |ks| <= limit && p in node && node[p] == LeafNode(limit, ks, vs)
      requires Sound(M()) && CtxShape(node, limit, c, p) && RootPtr(c, p) == root && ProperCtx(c)
      requires CtxPtrs(c) + multiset{p} + rest == multiset(node.Keys)
      modifies this`node
      ensures Sound(M()) && node.Keys == old(node.Keys) && SameOn(old(node), node, rest)
      ensures node[p] == LeafNode(limit, ks + [key], vs + [val])
      ensures CtxShape(node, limit, if ks == [] then SetSep(c, key) else c, p)
    {
      hide Pad, Linked, Shape, PtrsOf, SameOn, CtxShape;
      var last := node[p].n;
      PadAppend(ks, limit + 1, INVALID_KEY, key);
      PadAppend(vs, limit + 1, NULL, val);
      LinkedLeaf(node, link, limit, p, ks + [key], vs + [val]);
      Split3(node.Keys, CtxPtrs(c), p, rest);
      ghost var nd := LeafNode(limit, ks + [key], vs + [val]);
      FrameOne(node, p, nd, CtxPtrs(c));
      FrameOne(node, p, nd, rest);
      CtxFrame(node, node[p := nd], limit, c, p);
      node := node[p := node[p].(n := last + 1, keys := node[p].keys[last := key], vals := node[p].vals[last := val])];
      assert node.Keys == old(node.Keys);
      if last == 0 {
        UpLink(M(), limit, c, p);
        ghost var node1 := node;
        PropagateReplacedKey(link[p].parent, link[p].childIdx, key, c, p, multiset{p} + rest);
        SameOnChain(old(node), node1, node, p, rest);
      }
    }

    /** `bplus_node_rm_idx_kvc` on a leaf: removing its first entry replaces the separator in
        front of it by the next key, which is the invalid key when the leaf becomes empty. */
    method RmIdxLeaf(p: Ptr, idx: nat, ghost c: Ctx, ghost t: Tree) returns (k: Key, v: Val)
      requires Held(M(), limit, c, t) && t.Leaf? && p == t.p && ProperCtx(c) && |t.vs| == |t.ks| <= limit
        && idx < |t.ks|
      modifies this`node
      ensures Held(M(), limit, if idx == 0 then SetSep(c, FirstKey(RemoveAt(t.ks, idx))) else c, Without(t, idx))
      ensures k == t.ks[idx] && v == t.vs[idx]
    {
      hide Linked, LeafNode, Shape, CtxShape, Ptrs, RemoveAt, FirstKey, SameOn;
      HeldLeaf(M(), limit, c, t);
      LeafHeld(M(), limit, c, t, RemoveAt(t.ks, idx), RemoveAt(t.vs, idx));
      k, v := RemoveFromLeaf(p, idx, t.ks, t.vs);
      ghost var t' := Without(t, idx);
      ghost var m := M();
      HeldLeaf(m, limit, c, t');
      LeafFirst(limit, t'.ks, t'.vs);
      UpLink(m, limit, c, p);
      if link[p].parent != NULL && idx == 0 {
        PropagateReplacedKey(link[p].parent, link[p].childIdx, node[p].keys[0], c, p, Ptrs(t'));
        SetSepHeld(m, M(), limit, c, t', FirstKey(t'.ks));
      } else if idx == 0 {
        SetSepTop(m, limit, c, p, FirstKey(t'.ks));
      }
    }

    /** `bplus_node_prepend_kvc` on a leaf: the new first key becomes the separator in front. */
    method PrependToLeaf(p: Ptr, key: Key, val: Val, ghost c: Ctx, ghost t: Tree)
      requires Held(M(), limit, c, t) && t.Leaf? && p == t.p && ProperCtx(c) && |t.vs| == |t.ks| < limit
      modifies this`node
      ensures Held(M(), limit, SetSep(c, key), Leaf(p, [key] + t.ks, [val] + t.vs))
    {
      hide Linked, Shape, CtxShape, Ptrs, Pad, Opened, InsertAt, SameOn;
      HeldLeaf(M(), limit, c, t);
      LeafHeld(M(), limit, c, t, [key] + t.ks, [val] + t.vs);
      var n, keys, vals := node[p].n, node[p].keys, node[p].vals;
      OpenedNone(t.ks, n, limit + 1, INVALID_KEY);
      OpenedNone(t.vs, n, limit + 1, NULL);
      var i := n;
      while i >= 1
        invariant 0 <= i <= n && node == old(node)
        invariant keys == Opened(t.ks, i, limit + 1, INVALID_KEY) && vals == Opened(t.vs, i, limit + 1, NULL)
      {
        OpenedStep(t.ks, i, limit + 1, INVALID_KEY);
        OpenedStep(t.vs, i, limit + 1, NULL);
        keys := keys[i := keys[i - 1]];
        vals := vals[i := vals[i - 1]];
        i := i - 1;
      }
      OpenedInsert(t.ks, 0, limit + 1, INVALID_KEY, key);
      OpenedInsert(t.vs, 0, limit + 1, NULL, val);
      InsertFront(t.ks, key);
      InsertFront(t.vs, val);
      keys := keys[0 := key];
      vals := vals[0 := val];
      node := node[p := node[p].(n := n + 1, keys := keys, vals := vals)];
      ghost var t' := Leaf(p, [key] + t.ks, [val] + t.vs);
      ghost var m := M();
      HeldLeaf(m, limit, c, t');
      UpLink(m, limit, c, p);
      PropagateReplacedKey(link[p].parent, link[p].childIdx, key, c, p, Ptrs(t'));
      SetSepHeld(m, M(), limit, c, t', key);
    }

    /** Stealing the last entry of the left neighbour, for leaves. */
    method StealLeftLeaf(p: Ptr, left: Ptr, ghost c1: Ctx, ghost a: Tree, ghost k: Key, ghost b: Tree)
      requires c1.Hole? && |c1.ls| <= |c1.ks| && Held(M(), limit, CtxB(c1, a, k), b) && left == a.p && p == b.p
      requires ProperCtx(c1) && a.Leaf? && b.Leaf?
      requires 2 <= |a.ks| == |a.vs| <= limit && |b.ks| == |b.vs| < limit
      modifies this`node
      ensures var n := |a.ks| - 1;
        Held(M(), limit, CtxB(c1, Without(a, n), a.ks[n]), Leaf(b.p, [a.ks[n]] + b.ks, [a.vs[n]] + b.vs))
    {
      hide Held, InsertAt, RemoveAt;
      ghost var n := |a.ks| - 1;
      PairViews(M(), limit, c1, a, k, b);
      PairProper(c1, a, k, b);
      HeldSize(M(), limit, CtxA(c1, k, b), a);
      var key, val := RmIdxLeaf(left, node[left].n - 1, CtxA(c1, k, b), a);
      PairViews(M(), limit, c1, Without(a, n), k, b);
      PairProper(c1, Without(a, n), k, b);
      SetSepB(c1, Without(a, n), k, key);
      PrependToLeaf(p, key, val, CtxB(c1, Without(a, n), k), b);
    }

    /** Stealing the first entry of the right neighbour, for leaves. */
    method StealRightLeaf(p: Ptr, right: Ptr, ghost c1: Ctx, ghost a: Tree, ghost k: Key, ghost b: Tree)
      requires c1.Hole? && |c1.ls| <= |c1.ks| && Held(M(), limit, CtxA(c1, k, b), a) && p == a.p && right == b.p
      requires ProperCtx(c1) && a.Leaf? && b.Leaf?
      requires |a.ks| == |a.vs| < limit && 2 <= |b.ks| == |b.vs| <= limit
      modifies this`node
      ensures var c1' := if a.ks == [] then SetSep(c1, b.ks[0]) else c1;
        && c1'.Hole? && |c1'.ls| <= |c1'.ks|
        && Held(M(), limit, CtxA(c1', FirstKey(RemoveAt(b.ks, 0)), Without(b, 0)),
          Leaf(a.p, a.ks + [b.ks[0]], a.vs + [b.vs[0]]))
    {
      hide Held, InsertAt, RemoveAt, Shape, CtxShape, Linked, SameOn;
      PairViews(M(), limit, c1, a, k, b);
      PairProper(c1, a, k, b);
      var key, val := RmIdxLeaf(right, 0, CtxB(c1, a, k), b);
      ghost var b', k' := Without(b, 0), FirstKey(RemoveAt(b.ks, 0));
      SetSepB(c1, a, k, k');
      PairViews(M(), limit, c1, a, k', b');
      PairProper(c1, a, k', b');
      ghost var m, c := M(), CtxA(c1, k', b');
      HeldLeaf(m, limit, c, a);
      LeafPtrs(a, c);
      AppendToLeaf(p, key, val, a.ks, a.vs, c, multiset{});
      SetSepA(c1, k', b', key);
      ghost var t := Leaf(p, a.ks + [key], a.vs + [val]);
      AppendedHeld(m, M(), limit, c, a, t, key);
    }

    /** `*key_at_parent` is read and written over; nothing hangs elsewhere for that. */
    method ReplaceSeparator(parent: Ptr, at: nat, key: Key, ghost ks: seq<Key>, ghost k: Key, ghost cs: seq<Ptr>,
                            ghost child: Ptr)
      returns (was: Key)
      requires at <= |ks| < limit && parent in node && node[parent] == InnerNode(limit, InsertAt(ks, at, k), cs)
      requires Linked(node, link) && child in link && !Attached(node, link, child)
      modifies this`node
      ensures was == k && node == old(node)[parent := InnerNode(limit, InsertAt(ks, at, key), cs)]
      ensures Linked(node, link) && !Attached(node, link, child)
    {
      hide InsertAt, InnerNode, Linked, Attached, Pad;
      InnerFields(limit, InsertAt(ks, at, k), cs);
      SeparatorAt(ks, at, k, key, limit + 1);
      InnerFields(limit, InsertAt(ks, at, key), cs);
      was := node[parent].keys[at];
      LinkedKeys(node, link, parent, node[parent].keys[at := key]);
      AttachedKeys(node, link, parent, node[parent].keys[at := key], child);
      node := node[parent := node[parent].(keys := node[parent].keys[at := key])];
    }

    /** Stealing the last child of the left neighbour, for inner nodes: keys rotate through
        the node above. */
    method StealLeftInner(parent: Ptr, pi: nat, p: Ptr, left: Ptr, ghost c1: Ctx, ghost a: Tree, ghost k: Key,
                          ghost b: Tree)
      requires c1.Hole? && |c1.ls| <= |c1.ks| < limit && Held(M(), limit, c1.up, ForkedTree(c1, a, k, b))
      requires parent == c1.p && pi == |c1.ls| + 1 && left == a.p && p == b.p
      requires a.Inner? && b.Inner? && 1 <= |a.ks| && |a.kids| == |a.ks| + 1 <= limit + 1
        && |b.kids| == |b.ks| + 1 <= limit
      modifies this`node, this`link
      ensures var n := |a.ks| - 1;
        Held(M(), limit, c1.up, ForkedTree(c1, Inner(a.p, a.ks[..n], a.kids[..n + 1]), a.ks[n],
                                               Inner(b.p, [k] + b.ks, [a.kids[n + 1]] + b.kids)))
    {
      hide Held, InsertAt, InnerNode, Linked, Attached, Roots, LinkedKids, Pad, ForkedTree, Sound;
      ghost var m, n, ra, rb := M(), |a.ks| - 1, Roots(a.kids), Roots(b.kids);
      InnerPair(m, limit, c1, a, k, b);
      var kTmp, cOut := CutTailInner(left, a.ks, ra);
      var kOld := ReplaceSeparator(parent, pi - 1, kTmp, c1.ks, k, Roots(c1.ls + [a, b] + c1.rs), cOut);
      KidsLinkedFrame(m.link, link, b.p, rb, ra);
      PrependToInner(p, kOld, cOut, b.ks, rb);
      ghost var a', b' := Inner(a.p, a.ks[..n], a.kids[..n + 1]), Inner(b.p, [k] + b.ks, [a.kids[n + 1]] + b.kids);
      RotateRoots(a, b, n + 1);
      assert cOut in ra;
      PairRotated(m, M(), limit, c1, a, k, b, a', kTmp, b');
    }

    /** Stealing the first child of the right neighbour, for inner nodes. */
    method StealRightInner(parent: Ptr, pi: nat, p: Ptr, right: Ptr, ghost c1: Ctx, ghost a: Tree, ghost k: Key,
                           ghost b: Tree)
      requires c1.Hole? && |c1.ls| <= |c1.ks| < limit && Held(M(), limit, c1.up, ForkedTree(c1, a, k, b))
      requires parent == c1.p && pi == |c1.ls| && p == a.p && right == b.p
      requires a.Inner? && b.Inner? && 1 <= |b.ks| && |b.kids| == |b.ks| + 1 <= limit + 1
        && |a.kids| == |a.ks| + 1 <= limit
      modifies this`node, this`link
      ensures
        Held(M(), limit, c1.up, ForkedTree(c1, Inner(a.p, a.ks + [k], a.kids + [b.kids[0]]), b.ks[0],
                                               Inner(b.p, b.ks[1..], b.kids[1..])))
    {
      hide Held, InsertAt, InnerNode, Linked, Attached, Roots, LinkedKids, Pad, ForkedTree, Sound;
      ghost var m, ra, rb := M(), Roots(a.kids), Roots(b.kids);
      InnerPair(m, limit, c1, a, k, b);
      var kTmp, cOut := CutHeadInner(right, b.ks, rb);
      var kOld := ReplaceSeparator(parent, pi, kTmp, c1.ks, k, Roots(c1.ls + [a, b] + c1.rs), cOut);
      KidsLinkedFrame(m.link, link, a.p, ra, rb);
      assert node - {} == node;
      AppendToInner(p, kOld, cOut, a.ks, ra, {});
      assert node - {} == node;
      ghost var a', b' := Inner(a.p, a.ks + [k], a.kids + [b.kids[0]]), Inner(b.p, b.ks[1..], b.kids[1..]);
      RotateRootsBack(a, b);
      assert cOut in rb;
      PairRotated(m, M(), limit, c1, a, k, b, a', kTmp, b');
    }

    /** The first step of `bplus_node_merge_left`: the separator and the right one of the
        pair leave the node above. */
    method DetachRight(parent: Ptr, left: Ptr, ghost c1: Ctx, ghost a: Tree, ghost k: Key, ghost b: Tree)
      returns (key: Key)
      requires c1.Hole? && ProperCtx(c1) && |c1.ks| < limit && Held(M(), limit, c1.up, ForkedTree(c1, a, k, b))
      requires parent == c1.p && left == a.p
      modifies this`node, this`link
      ensures key == k && HeldWith(M(), limit, c1, a, Ptrs(b)) && Shape(node, limit, b)
      ensures b.p in link && link[b.p] == Link(c1.p, |c1.ls| + 1)
      ensures forall x ::
        x in old(link) && (x !in node || x !in CtxKids(c1, a.p)) ==> x in link && link[x] == old(link)[x]
    {
      hide Held, HeldWith, InsertAt, RemoveAt, InnerNode, Linked, LinkedKids, Shape, Roots, Ptrs, CtxPtrs, CtxKids;
      ghost var m, cs := M(), Roots(c1.ls + [a, b] + c1.rs);
      ForkNode(m, limit, c1, a, k, b);
      var right;
      key, right := RemoveFromInner(parent, link[left].childIdx, InsertAt(c1.ks, |c1.ls|, k), cs);
      RemovedSubset(cs, |c1.ls| + 1);
      assert node.Keys == m.node.Keys && link[root] == m.link[root];
      UnforkHeld(m, M(), limit, c1, a, k, b);
    }

    /** `bplus_node_free` */
    method NodeFree(p: Ptr)
      requires p in node
      modifies this`node, this`link
      ensures node == old(node) - {p} && link == old(link) - {p}
    {
      node := node - {p};
      link := link - {p};
    }

    /** One entry of the loop of `bplus_node_merge_left`: entry `i` of the leaf `b` goes to the
        end of the leaf `a`, which has those before it already. */
    method MergeEntry(left: Ptr, key: Key, val: Val, ghost c1: Ctx, ghost a: Tree, ghost b: Tree, ghost i: nat,
                      ghost c0: Ctx)
      returns (ghost c: Ctx)
      requires c1.Hole? && left == a.p && a.Leaf? && b.Leaf? && |a.ks| == |a.vs| && |b.ks| == |b.vs|
        && |a.ks| + |b.ks| <= limit
      requires i < |b.ks| && key == b.ks[i] && val == b.vs[i] && c0 == MergedCtx(c1, a, b, i)
      requires ProperCtx(c1) && c0.Hole? && ProperCtx(c0) && c0.p == c1.p
        && HeldWith(M(), limit, c0, MergedLeaf(a, b, i), multiset{b.p})
      modifies this`node, this`link
      ensures c == MergedCtx(c1, a, b, i + 1) && c.Hole? && ProperCtx(c) && c.p == c1.p
      ensures HeldWith(M(), limit, c, MergedLeaf(a, b, i + 1), multiset{b.p}) && link == old(link)
    {
      hide Held, HeldWith, InsertAt, LeafNode, Shape, SameOn, Attached, Linked, CtxShape, PtrsOf, Sound, SetSep,
           ProperCtx, CtxPtrs, RootPtr, Ptrs, CtxKids;
      ghost var m, t := M(), MergedLeaf(a, b, i);
      LeafWith(m, limit, c0, t, multiset{b.p});
      AppendToLeaf(left, key, val, t.ks, t.vs, c0, multiset{b.p});
      ghost var t' := Leaf(a.p, t.ks + [key], t.vs + [val]);
      AppendedWith(m, M(), limit, c0, t, t', key, multiset{b.p});
      assert b.ks[..i] + [b.ks[i]] == b.ks[..i + 1] && b.vs[..i] + [b.vs[i]] == b.vs[..i + 1];
      assert t' == MergedLeaf(a, b, i + 1);
      SetSepHole(c1, b.ks[0]);
      c := if t.ks == [] then SetSep(c0, key) else c0;
    }

    /** `bplus_node_merge_left` for leaves. */
    method MergeLeaves(parent: Ptr, left: Ptr, right: Ptr, ghost c1: Ctx, ghost a: Tree, ghost k: Key, ghost b: Tree)
      returns (ghost c: Ctx)
      requires c1.Hole? && ProperCtx(c1) && |c1.ks| < limit && Held(M(), limit, c1.up, ForkedTree(c1, a, k, b))
      requires parent == c1.p && left == a.p && right == b.p && a.Leaf? && b.Leaf?
      requires |a.ks| == |a.vs| && |b.ks| == |b.vs| && |a.ks| + |b.ks| <= limit
      modifies this`node, this`link
      ensures c == (if a.ks == [] && b.ks != [] then SetSep(c1, b.ks[0]) else c1)
      ensures Held(M(), limit, c, Leaf(a.p, a.ks + b.ks, a.vs + b.vs))
    {
      hide Held, HeldWith, InsertAt, LeafNode, Shape, SameOn, Attached, Linked, CtxShape, PtrsOf, Sound, SetSep,
           ProperCtx, CtxPtrs, RootPtr, ForkedTree, Ptrs, CtxKids;
      var _ := DetachRight(parent, left, c1, a, k, b);
      LeafBody(node, limit, b);
      var n, keys, vals := node[right].n, node[right].keys, node[right].vals;
      c := c1;
      ghost var link1 := link;
      MergedNone(a, b);
      var i := 0;
      while i < n
        invariant i <= n && n == |b.ks| && link == link1 && c == MergedCtx(c1, a, b, i)
        invariant c.Hole? && ProperCtx(c) && c.p == c1.p && HeldWith(M(), limit, c, MergedLeaf(a, b, i), multiset{b.p})
      {
        c := MergeEntry(left, keys[i], vals[i], c1, a, b, i, c);
        i := i + 1;
      }
      assert b.ks[..n] == b.ks && b.vs[..n] == b.vs;
      ghost var t := MergedLeaf(a, b, n);
      DetachedFree(M(), limit, c, t, right);
      FreeHeld(M(), limit, c, t, right);
      NodeFree(right);
    }

    /** While the children `rb` of `q` move behind the children `ra` of `p`: the first `i` have
        done so, and `p` has the keys `ks`. */
    ghost predicate Moving(m: Mem, p: Ptr, q: Ptr, ks: seq<Key>, ra: seq<Ptr>, rb: seq<Ptr>, i: nat)
      reads this
    {
      && i <= |rb| && node == m.node[p := InnerNode(limit, ks, ra + rb[..i])]
      && LinkedKids(link, p, ra + rb[..i]) && Linked(node - {q}, link) && MoveInv(m, link, q, rb, i)
    }

    /** One child of the loop of `bplus_node_merge_left`, with the key in front of it. */
    method MoveChild(left: Ptr, key: Key, child: Ptr, ghost m: Mem, ghost q: Ptr, ghost ks: seq<Key>,
                     ghost ra: seq<Ptr>, ghost rb: seq<Ptr>, ghost i: nat)
      requires Moving(m, left, q, ks, ra, rb, i) && i < |rb| && child == rb[i] && |ra| + i == |ks| + 1 <= limit + 1
        && left != q
      requires Distinct(ra + rb) && NULL !in rb
      modifies this`node, this`link
      ensures Moving(m, left, q, ks + [key], ra, rb, i + 1)
    {
      hide InnerNode, Attached, Linked, LinkedKids, Distinct, MoveInv;
      MoveNext(m, node - {q}, link, q, ra, rb, i);
      ghost var l := link;
      AppendToInner(left, key, child, ks, ra + rb[..i], {q});
      MoveStep(m, l, link, left, q, ra, rb, i);
      assert ra + rb[..i] + [rb[i]] == ra + rb[..i + 1];
    }

    /** `bplus_node_merge_left` for inner nodes: the separator comes down between the two. */
    method MergeInners(parent: Ptr, left: Ptr, right: Ptr, ghost c1: Ctx, ghost a: Tree, ghost k: Key, ghost b: Tree)
      requires c1.Hole? && ProperCtx(c1) && |c1.ks| < limit && Held(M(), limit, c1.up, ForkedTree(c1, a, k, b))
      requires parent == c1.p && left == a.p && right == b.p && a.Inner? && b.Inner?
      requires |a.kids| == |a.ks| + 1 && |b.kids| == |b.ks| + 1 && |a.ks| + |b.ks| + 1 <= limit
      modifies this`node, this`link
      ensures Held(M(), limit, c1, Inner(a.p, a.ks + [k] + b.ks, a.kids + b.kids))
    {
      hide Held, HeldWith, InsertAt, InnerNode, Shape, Attached, Linked, CtxShape, PtrsOf, Sound, ProperCtx, CtxPtrs,
           RootPtr, ForkedTree, Ptrs, CtxKids, LinkedKids, Roots, Distinct, Adopting, MoveInv, Pad;
      ghost var ra, rb := Roots(a.kids), Roots(b.kids);
      RootsLen(a.kids, b.kids);
      var key := DetachRight(parent, left, c1, a, k, b);
      ghost var m := M();
      MergeReady(m, limit, c1, a, b);
      InnerFields(limit, b.ks, rb);
      PadBody(b.ks, rb, limit);
      var n, keys, children := node[right].n, node[right].keys, node[right].children;
      MoveStart(m, limit, a.p, b.p, ra, rb);
      assert ra + rb[..0] == ra && b.ks[..0] == [] && a.ks + [k] + [] == a.ks + [k];
      assert m.node[a.p := InnerNode(limit, a.ks, ra)] == m.node;
      MoveChild(left, key, children[0], m, right, a.ks, ra, rb, 0);
      var i := 0;
      while i < n
        invariant i <= n && n == |b.ks| && Moving(m, a.p, b.p, a.ks + [k] + b.ks[..i], ra, rb, i + 1)
      {
        MoveChild(left, keys[i], children[i + 1], m, right, a.ks + [k] + b.ks[..i], ra, rb, i + 1);
        assert a.ks + [k] + b.ks[..i] + [b.ks[i]] == a.ks + [k] + b.ks[..i + 1];
        i := i + 1;
      }
      assert rb[..n + 1] == rb && b.ks[..n] == b.ks;
      MergedHeld(m, limit, c1, a, k, b, link);
      NodeFree(right);
    }

    /** `bplus_node_rebalance`, stealing from the left neighbour. */
    method StealFromLeft(p: Ptr, parent: Ptr, pi: nat, left: Ptr, ghost c0: Ctx, ghost c: Ctx, ghost t: Tree,
                         ghost h: nat)
      returns (ghost c': Ctx, ghost t': Tree)
      requires limit >= 2 && Ready(M(), limit, c0, c, t, h) && p == t.p && c.Hole? && c.ls != []
      requires parent == c.p && pi == |c.ls| && left == c.ls[|c.ls| - 1].p && |t.ks| < limit / 2 < |c.ls[|c.ls| - 1].ks|
      modifies this`node, this`link
      ensures Ready(M(), limit, c', c', t', h) && |t'.ks| == |t.ks| + 1 && c'.Hole?
      ensures ProperCtx(c0) && ProperCtx(c') && EntrySet(Whole(c', t')) == EntrySet(Whole(c0, t))
    {
      hide Held, Ordered, EntrySet, Whole, BalKids, InsertAt, RemoveAt;
      ghost var a, k, c1 := c.ls[|c.ls| - 1], c.ks[|c.ls| - 1], LeftPair(c);
      ghost var n := |a.ks| - 1;
      LeftPairIs(c);
      HeldSize(M(), limit, c, t);
      BalCtxProper(c, h, limit);
      BalSides(c, h, limit);
      ReadyShape(t, h, limit);
      if node[p].leaf {
        LeftLeafStolen(c0, c, t, h, limit);
        StealLeftLeaf(p, left, c1, a, k, t);
        c', t' := CtxB(c1, Without(a, n), a.ks[n]), Leaf(t.p, [a.ks[n]] + t.ks, [a.vs[n]] + t.vs);
      } else {
        LeftInnerStolen(c, t, h, limit);
        PairViews(M(), limit, c1, a, k, t);
        StealLeftInner(parent, pi, p, left, c1, a, k, t);
        ghost var a' := Inner(a.p, a.ks[..n], a.kids[..n + 1]);
        t' := Inner(t.p, [k] + t.ks, [a.kids[n + 1]] + t.kids);
        PairViews(M(), limit, c1, a', a.ks[n], t');
        c' := CtxB(c1, a', a.ks[n]);
      }
    }

    /** `bplus_node_rebalance`, stealing from the right neighbour. */
    method StealFromRight(p: Ptr, parent: Ptr, pi: nat, right: Ptr, ghost c0: Ctx, ghost c: Ctx, ghost t: Tree,
                          ghost h: nat)
      returns (ghost c': Ctx, ghost t': Tree)
      requires limit >= 2 && Ready(M(), limit, c0, c, t, h) && p == t.p && c.Hole? && c.rs != []
      requires parent == c.p && pi == |c.ls| && right == c.rs[0].p && |t.ks| < limit / 2 < |c.rs[0].ks|
      modifies this`node, this`link
      ensures Ready(M(), limit, c', c', t', h) && t'.p == p && |t'.ks| == |t.ks| + 1 && (t'.Leaf? <==> t.Leaf?)
      ensures Depth(c') == Depth(c) && Levels(c) != [] && Levels(c') == AfterTaking(Levels(c))
      ensures c'.Hole? && c'.p == c.p && c'.ls == c.ls && c'.rs != [] && c'.rs[0].p == right
        && |c'.rs[0].ks| == |c.rs[0].ks| - 1
      ensures ProperCtx(c0) && ProperCtx(c') && EntrySet(Whole(c', t')) == EntrySet(Whole(c0, t))
    {
      hide Held, Ordered, EntrySet, Whole, BalKids, InsertAt, FirstKey, Levels;
      ghost var b, k, c1 := c.rs[0], c.ks[|c.ls|], RightPair(c);
      RightPairIs(c);
      HeldSize(M(), limit, c, t);
      BalCtxProper(c, h, limit);
      BalSides(c, h, limit);
      ReadyShape(t, h, limit);
      if node[p].leaf {
        RightLeafStolen(c0, c, t, h, limit);
        StealRightLeaf(p, right, c1, t, k, b);
        t' := Leaf(t.p, t.ks + [b.ks[0]], t.vs + [b.vs[0]]);
        SetSepKeeps(c1, b.ks[0], h, limit);
        SetSepLevels(c1.up, b.ks[0]);
        c1 := if t.ks == [] then SetSep(c1, b.ks[0]) else c1;
        c' := CtxA(c1, FirstKey(RemoveAt(b.ks, 0)), Without(b, 0));
      } else {
        RightInnerStolen(c, t, h, limit);
        PairViews(M(), limit, c1, t, k, b);
        StealRightInner(parent, pi, p, right, c1, t, k, b);
        ghost var b' := Inner(b.p, b.ks[1..], b.kids[1..]);
        t' := Inner(t.p, t.ks + [k], t.kids + [b.kids[0]]);
        PairViews(M(), limit, c1, t', b.ks[0], b');
        c' := CtxA(c1, b.ks[0], b');
      }
      TakenLevels(c, c');
    }

    /** `bplus_node_rebalance`, merging the node into its left neighbour. */
    method MergeWithLeft(p: Ptr, parent: Ptr, left: Ptr, ghost c0: Ctx, ghost c: Ctx, ghost t: Tree, ghost h: nat)
      returns (ghost c': Ctx, ghost t': Tree)
      requires limit >= 2 && Ready(M(), limit, c0, c, t, h) && p == t.p && c.Hole? && c.ls != []
      requires parent == c.p && left == c.ls[|c.ls| - 1].p
      requires limit / 2 <= |c.ls[|c.ls| - 1].ks| + |t.ks| + (if t.Leaf? then 0 else 1) <= limit
      modifies this`node, this`link
      ensures Ready(M(), limit, c', c', t', h + 1) && t'.Inner? && t'.p == parent && |t'.ks| == |c.ks| - 1
      ensures c' == c.up && ProperCtx(c0) && ProperCtx(c') && EntrySet(Whole(c', t')) == EntrySet(Whole(c0, t))
    {
      hide Held, Ordered, EntrySet, Whole, BalKids, InsertAt, RemoveAt;
      ghost var a, k, c1 := c.ls[|c.ls| - 1], c.ks[|c.ls| - 1], LeftPair(c);
      LeftMerged(c0, c, t, h, limit);
      HeldSize(M(), limit, c, t);
      ReadyShape(t, h, limit);
      ReadyShape(a, h, limit);
      PairViews(M(), limit, c1, a, k, t);
      if node[p].leaf {
        ghost var d := MergeLeaves(parent, left, p, c1, a, k, t);
      } else {
        MergeInners(parent, left, p, c1, a, k, t);
      }
      OutHeld(M(), limit, c1, Joined(a, k, t));
      c', t' := c1.up, Above(c1, Joined(a, k, t));
    }

    /** `bplus_node_rebalance`, merging the right neighbour into the node. */
    method MergeWithRight(p: Ptr, parent: Ptr, right: Ptr, ghost c0: Ctx, ghost c: Ctx, ghost t: Tree, ghost h: nat)
      returns (ghost c': Ctx, ghost t': Tree)
      requires limit >= 2 && Ready(M(), limit, c0, c, t, h) && p == t.p && c.Hole? && c.rs != []
      requires parent == c.p && right == c.rs[0].p
      requires limit / 2 <= |c.rs[0].ks| + |t.ks| + (if t.Leaf? then 0 else 1) <= limit
      modifies this`node, this`link
      ensures Ready(M(), limit, c', c', t', h + 1) && t'.Inner? && t'.p == parent && |t'.ks| == |c.ks| - 1
      ensures Depth(c') == Depth(c.up) && (c'.Top? <==> c.up.Top?) && Levels(c') == Levels(c.up)
      ensures ProperCtx(c0) && ProperCtx(c') && EntrySet(Whole(c', t')) == EntrySet(Whole(c0, t))
    {
      hide Held, Ordered, EntrySet, Whole, BalKids, InsertAt, RemoveAt, Levels;
      ghost var b, k, c1 := c.rs[0], c.ks[|c.ls|], RightPair(c);
      RightMerged(c0, c, t, h, limit);
      HeldSize(M(), limit, c, t);
      ReadyShape(t, h, limit);
      ReadyShape(b, h, limit);
      PairViews(M(), limit, c1, t, k, b);
      ghost var d := c1;
      SetSepKeeps(c1.up, FirstKey(b.ks), h, limit);
      SetSepLevels(c1.up, FirstKey(b.ks));
      if node[p].leaf {
        d := MergeLeaves(parent, p, right, c1, t, k, b);
      } else {
        MergeInners(parent, p, right, c1, t, k, b);
      }
      OutHeld(M(), limit, d, Joined(t, k, b));
      c', t' := d.up, Above(d, Joined(t, k, b));
    }

    /** An inner root left with no key gives way to its only child. */
    method CollapseRoot(p: Ptr, ghost t: Tree, ghost h: nat) returns (ghost t': Tree)
      requires Held(M(), limit, Top, t) && p == t.p && t.Inner? && BalKids(t, h, limit) && t.ks == [] && limit >= 2
      modifies this
      ensures Held(M(), limit, Top, t') && Items(t') == Items(t) && h > 0 && Bal(t', h - 1, limit, limit / 2)
      ensures tree == old(tree) && height == old(height)
    {
      hide Held, Linked, Shape;
      t' := t.kids[0];
      OnlyChild(M(), limit, t, h);
      var n := node[p].children[0];
      assert n != NULL && node[p].children[1] == NULL;
      CollapseHeld(M(), limit, t);
      link := link[n := UNLINKED];
      root := n;
      NodeFree(p);
    }

    /** `bplus_node_rebalance` */
    method Rebalance(p: Ptr, ghost c0: Ctx, ghost c: Ctx, ghost t: Tree, ghost h: nat)
      returns (err: Err, ghost t': Tree, ghost h': nat)
      requires limit >= 2 && Ready(M(), limit, c0, c, t, h) && p == t.p && (c.Hole? ==> limit / 2 <= |t.ks| + 1)
      modifies this
      ensures err == if Reports(Levels(c), |t.ks|, t.Leaf?, limit) then DelErr else Ok
      ensures Held(M(), limit, Top, t') && Bal(t', h', limit, RootMin(t')) && Ordered(Items(t'))
      ensures ProperCtx(c0) && EntrySet(Items(t')) == EntrySet(Whole(c0, t))
      decreases Depth(c), 1
    {
      hide Held, Ordered, EntrySet, Items, Before, After, BalKids, Refused, Levels;
      LevelsOf(c);
      HeldSize(M(), limit, c, t);
      UpReady(M(), limit, c0, c, t, h);
      var parent, leaf := link[p].parent, node[p].leaf;
      if node[p].n == 0 && !leaf && parent == NULL {
        TopWhole(t, 0);
        t' := CollapseRoot(p, t, h);
        return Ok, t', h - 1;
      }
      var minNKv, nonleafKey := limit / 2, if leaf then 0 else 1;
      if parent == NULL || node[p].n >= minNKv {
        Settled(M(), limit, c, t, h);
        return Ok, Plug(c, t), h + Depth(c);
      }
      var pi := link[p].childIdx;
      Neighbours(M(), limit, c, t, h);
      var cLeft := if pi > 0 then node[parent].children[pi - 1] else NULL;
      var cRight := if pi + 1 < limit + 1 then node[parent].children[pi + 1] else NULL;
      if cLeft != NULL && node[cLeft].n > minNKv {
        ghost var c1, t1 := StealFromLeft(p, parent, pi, cLeft, c0, c, t, h);
        Settled(M(), limit, c1, t1, h);
        return Ok, Plug(c1, t1), h + Depth(c1);
      }
      ghost var d0, d, u := c0, c, t;
      if cRight != NULL && node[cRight].n > minNKv {
        d, u := StealFromRight(p, parent, pi, cRight, c0, c, t, h);
        d0 := d;
        Neighbours(M(), limit, d, u, h);
      }
      err, t', h' := MergeOrStop(p, parent, cLeft, cRight, nonleafKey, d0, d, u, h);
    }

    /** `bplus_node_rebalance`, from the merge tests on. */
    method MergeOrStop(p: Ptr, parent: Ptr, cLeft: Ptr, cRight: Ptr, nonleafKey: nat,
                       ghost c0: Ctx, ghost c: Ctx, ghost t: Tree, ghost h: nat)
      returns (err: Err, ghost t': Tree, ghost h': nat)
      requires limit >= 2 && Ready(M(), limit, c0, c, t, h) && c.Hole? && limit / 2 <= |t.ks| + 1
      requires p == t.p && parent == c.p && nonleafKey == (if t.Leaf? then 0 else 1)
      requires cLeft == (if c.ls == [] then NULL else c.ls[|c.ls| - 1].p)
      requires cRight == (if c.rs == [] then NULL else c.rs[0].p)
      requires |t.ks| < limit / 2 ==>
        (c.ls != [] ==> |c.ls[|c.ls| - 1].ks| <= limit / 2) && (c.rs != [] ==> |c.rs[0].ks| <= limit / 2)
      modifies this
      ensures err == if Refused(Levels(c), |t.ks|, |t.ks| >= limit / 2, t.Leaf?, limit) then DelErr else Ok
      ensures Held(M(), limit, Top, t') && Bal(t', h', limit, RootMin(t')) && Ordered(Items(t'))
      ensures ProperCtx(c0) && EntrySet(Items(t')) == EntrySet(Whole(c0, t))
      decreases Depth(c), 0
    {
      hide Held, Ordered, EntrySet, Items, Before, After, BalKids, Reports, Levels;
      LevelsOf(c);
      HeldSize(M(), limit, c, t);
      Neighbours(M(), limit, c, t, h);
      ghost var d, u;
      if cLeft != NULL && node[cLeft].n + node[p].n + nonleafKey <= limit {
        d, u := MergeWithLeft(p, parent, cLeft, c0, c, t, h);
        err, t', h' := Rebalance(parent, d, d, u, h + 1);
        return;
      }
      if cRight != NULL && node[cRight].n + node[p].n + nonleafKey <= limit {
        d, u := MergeWithRight(p, parent, cRight, c0, c, t, h);
        err, t', h' := Rebalance(parent, d, d, u, h + 1);
        return;
      }
      Settled(M(), limit, c, t, h);
      return DelErr, Plug(c, t), h + Depth(c);
    }

    /** `bplus_tree_del`: whichever code it returns for a present key, the key is gone.  The
        error is returned exactly when the last level worked on has taken a key from the right
        and neither merge test fits then (`ReportsIff`). */
    method Del(key: Key) returns (err: Err, val: Val)
      requires Valid() && 0 <= key <= INVALID_KEY
      modifies this
      ensures Valid()
      ensures key == INVALID_KEY ==> err == DelInvKey && M() == old(M()) && Map() == old(Map())
      ensures key < INVALID_KEY && key !in old(Map()) ==> err == DelNotExist && M() == old(M()) && Map() == old(Map())
      ensures key < INVALID_KEY && key in old(Map()) ==>
        && err == (if old(Refuses(tree, [], key, limit)) then DelErr else Ok)
        && val == old(Map())[key] && Map() == old(Map()) - {key}
    {
      hide Held, Sorted, Items, BalKids, Before, After, Located, Contents, ValidKeys, EntrySet, Descends, LeafFor,
           Refuses, Reports, Levels;
      LevelsOf(Top);
      val := NULL;
      if key == INVALID_KEY {
        return DelInvKey, val;
      }
      TopWhole(tree, key);
      TreeDescends(M(), limit, tree, height);
      var leaf := LeafSearch(root, key, height);
      ghost var c, t := Leads(M(), limit, Top, tree, key, height);
      HeldNode(M(), limit, c, t, 0);
      LeafDecides(c, t, key);
      var i := 0;
      while i < node[leaf].n && node[leaf].keys[i] != key
        invariant i <= node[leaf].n && forall j :: 0 <= j < i ==> t.ks[j] != key
      {
        i := i + 1;
      }
      if i == node[leaf].n {
        return DelNotExist, val;
      }
      ghost var s := Whole(c, t);
      ghost var c0 := ShrunkLeaf(c, t, i);
      SetSepKeeps(c, FirstKey(RemoveAt(t.ks, i)), 0, limit);
      SetSepLevels(c, FirstKey(RemoveAt(t.ks, i)));
      ShrunkBal(t, i, limit);
      var k;
      k, val := RmIdxLeaf(leaf, i, c, t);
      err, tree, height := Rebalance(leaf, c0, Dented(c0, Without(t, i)), Without(t, i), 0);
      RemoveContents(s, Items(tree), key, val);
    }
  }
}
