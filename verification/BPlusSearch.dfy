/** What a search sees, read off the nodes in memory alone, whether they make up a tree or not. */
module BPlusSearch {
  import opened BPlusModel
  import opened BPlusStore
  import opened BPlusArrays
  import opened BPlusHeld
  import opened BPlusReport

  datatype Result = Missing | Found(val: Val)

  function Lookup(m: map<Key, Val>, key: Key): Result {
    if key in m then Found(m[key]) else Missing
  }

  /** Every walk down from `p` stays within the arrays and is at a leaf after `h` steps. */
  ghost predicate Descends(node: Nodes, p: Ptr, h: nat)
    decreases h
  {
    && p in node && node[p].n <= |node[p].keys|
    && if node[p].leaf then node[p].n <= |node[p].vals|
       else
         && h > 0 && node[p].n < |node[p].children|
         && forall i :: 0 <= i <= node[p].n ==> Descends(node, node[p].children[i], h - 1)
  }

  /** The leaf that the separators lead to. */
  ghost function LeafFor(node: Nodes, p: Ptr, key: Key, h: nat): (r: Ptr)
    requires Descends(node, p, h)
    ensures r in node && node[r].leaf && node[r].n <= |node[r].keys| && node[r].n <= |node[r].vals|
    decreases h
  {
    if node[p].leaf then p
    else LeafFor(node, node[p].children[ChildIndex(node[p].keys[..node[p].n], key)], key, h - 1)
  }

  function IndexOf(ks: seq<Key>, key: Key): (i: nat)
    ensures i <= |ks| && (i < |ks| ==> ks[i] == key) && forall j :: 0 <= j < i ==> ks[j] != key
  {
    if ks == [] || ks[0] == key then 0 else 1 + IndexOf(ks[1..], key)
  }

  /** What the first `n` slots of a leaf hold for a key. */
  ghost function Scan(x: Node, key: Key): Result
    requires x.n <= |x.keys| && x.n <= |x.vals|
  {
    Among(x.keys[..x.n], x.vals[..x.n], key)
  }

  ghost function Among(ks: seq<Key>, vs: seq<Val>, key: Key): Result
    requires |ks| == |vs|
  {
    var i := IndexOf(ks, key);
    if i < |ks| then Found(vs[i]) else Missing
  }

  ghost function Seen(node: Nodes, p: Ptr, key: Key, h: nat): Result
    requires Descends(node, p, h)
  {
    Scan(node[LeafFor(node, p, key, h)], key)
  }

  lemma IndexUnique(ks: seq<Key>, key: Key, i: nat)
    requires i < |ks| && ks[i] == key && forall j :: 0 <= j < i ==> ks[j] != key
    ensures IndexOf(ks, key) == i
  {
  }

  lemma ChildUnique(ks: seq<Key>, key: Key, i: nat)
    requires i <= |ks| && (forall j :: 0 <= j < i ==> ks[j] <= key) && (i < |ks| ==> ks[i] > key)
    ensures ChildIndex(ks, key) == i
  {
  }

  // ---------------------------------------------------------------- in a tree

  lemma PadFront<T>(s: seq<T>, n: nat, x: T)
    requires |s| <= n
    ensures |Pad(s, n, x)| == n && Pad(s, n, x)[..|s|] == s
  {
  }

  lemma {:induction false} ShapeDescends(node: Nodes, lim: nat, t: Tree, h: nat)
    requires Shape(node, lim, t) && BalKids(t, h, lim) && |t.ks| <= lim
    ensures Descends(node, t.p, h)
    decreases t
  {
    PadFront(t.ks, lim + 1, INVALID_KEY);
    if t.Inner? {
      PadFront(Roots(t.kids), lim + 2, NULL);
      forall i | 0 <= i <= node[t.p].n ensures Descends(node, node[t.p].children[i], h - 1) {
        assert node[t.p].children[..|t.kids|][i] == Roots(t.kids)[i];
        ShapeDescends(node, lim, t.kids[i], h - 1);
      }
    }
  }

  /** The walk ends in the leaf in whose key range the key lies. */
  lemma {:induction false} Leads(m: Mem, lim: nat, c0: Ctx, t0: Tree, key: Key, h: nat) returns (c: Ctx, t: Tree)
    requires Held(m, lim, c0, t0) && BalCtx(c0, h, lim) && Bal(t0, h, lim, MinKeys(c0, t0, lim))
      && Descends(m.node, t0.p, h)
    requires ProperCtx(c0) && Located(c0, key) && Sorted(Whole(c0, t0))
    ensures Held(m, lim, c, t) && t.Leaf? && t.p == LeafFor(m.node, t0.p, key, h) && BalCtx(c, 0, lim)
    ensures Bal(t, 0, lim, MinKeys(c, t, lim)) && |t.ks| <= lim && |t.vs| == |t.ks|
    ensures ProperCtx(c) && Located(c, key) && Whole(c, t) == Whole(c0, t0) && (t0.Leaf? ==> c == c0 && t == t0)
    ensures Refuses(t0, Levels(c0), key, lim) == Reports(Levels(c), |t.ks| - 1, true, lim)
    decreases h
  {
    hide Held, Items, Before, After, Sorted, Located, BalKids, Levels, Reports;
    HeldNode(m, lim, c0, t0, h);
    if t0.Leaf? {
      return c0, t0;
    }
    var i := Branch(m, lim, c0, t0, key, h);
    LocatedInto(c0, t0, key, i);
    IntoItems(c0, t0, i);
    IntoHeld(m, lim, c0, t0, i);
    IntoBal(c0, t0, i, h, lim);
    IntoLevels(c0, t0, i);
    c, t := Leads(m, lim, Into(c0, t0, i), t0.kids[i], key, h - 1);
  }

  lemma Branch(m: Mem, lim: nat, c: Ctx, t: Tree, key: Key, h: nat) returns (i: nat)
    requires Held(m, lim, c, t) && t.Inner? && BalKids(t, h, lim) && |t.ks| <= lim && Descends(m.node, t.p, h)
    ensures i <= |t.ks| && |t.kids| == |t.ks| + 1 && (i > 0 ==> t.ks[i - 1] <= key) && (i < |t.ks| ==> t.ks[i] > key)
      && h > 0 && i == ChildIndex(t.ks, key)
    ensures Descends(m.node, t.kids[i].p, h - 1)
      && LeafFor(m.node, t.p, key, h) == LeafFor(m.node, t.kids[i].p, key, h - 1)
  {
    hide Linked, CtxShape;
    var x := m.node[t.p];
    PadFront(t.ks, lim + 1, INVALID_KEY);
    PadFront(Roots(t.kids), lim + 2, NULL);
    i := ChildIndex(t.ks, key);
    assert x.keys[..x.n] == t.ks;
    assert x.children[..|t.kids|][i] == Roots(t.kids)[i];
  }

  /** In a tree a search sees the map that the tree stands for. */
  lemma SeenMap(m: Mem, lim: nat, tree: Tree, h: nat, key: Key)
    requires Held(m, lim, Top, tree) && Bal(tree, h, lim, RootMin(tree)) && Sorted(Items(tree))
    ensures tree.p == m.root && Descends(m.node, m.root, h)
    ensures Seen(m.node, m.root, key, h) == Lookup(Contents(Items(tree)), key)
  {
    hide Held, Items, Sorted, BalKids, Before, After, Located, Contents;
    TreeDescends(m, lim, tree, h);
    TopWhole(tree, key);
    var c, t := Leads(m, lim, Top, tree, key, h);
    LeafDecides(c, t, key);
    LeafScan(m, lim, c, t, key);
  }

  lemma TreeDescends(m: Mem, lim: nat, tree: Tree, h: nat)
    requires Held(m, lim, Top, tree) && Bal(tree, h, lim, RootMin(tree))
    ensures tree.p == m.root && Descends(m.node, m.root, h)
  {
    HeldRoot(m, lim, tree);
    ShapeDescends(m.node, lim, tree, h);
  }

  lemma LeafScan(m: Mem, lim: nat, c: Ctx, t: Tree, key: Key)
    requires Held(m, lim, c, t) && t.Leaf? && |t.vs| == |t.ks| <= lim
    ensures t.p in m.node && m.node[t.p] == LeafNode(lim, t.ks, t.vs)
    ensures
      var x := m.node[t.p];
      x.n == |t.ks| <= |x.keys| == |x.vals| && x.keys[..x.n] == t.ks && x.vals[..x.n] == t.vs
    ensures Scan(m.node[t.p], key) == Among(t.ks, t.vs, key)
    ensures key in t.ks <==> IndexOf(t.ks, key) < |t.ks|
  {
    hide Linked, CtxShape;
    PadFront(t.ks, lim + 1, INVALID_KEY);
    PadFront(t.vs, lim + 1, NULL);
    assert IndexOf(t.ks, key) <= |t.ks|;
  }

  // ---------------------------------------------------------------- a leaf is written over

  ghost predicate LikeLeaf(x: Node, y: Node) {
    x.leaf && y.leaf && y.n == x.n && |y.keys| == |x.keys| && |y.vals| == |x.vals|
  }

  /** Other contents of a leaf do not change where a walk goes. */
  lemma {:induction false} SameWalk(node: Nodes, q: Ptr, y: Node, p: Ptr, key: Key, h: nat)
    requires Descends(node, p, h) && q in node && LikeLeaf(node[q], y)
    ensures Descends(node[q := y], p, h) && LeafFor(node[q := y], p, key, h) == LeafFor(node, p, key, h)
    decreases h
  {
    if !node[p].leaf {
      forall i | 0 <= i <= node[p].n ensures Descends(node[q := y], node[p].children[i], h - 1) {
        SameWalk(node, q, y, node[p].children[i], key, h - 1);
      }
      SameWalk(node, q, y, node[p].children[ChildIndex(node[p].keys[..node[p].n], key)], key, h - 1);
    }
  }

  // ---------------------------------------------------------------- a key already present

  /** After an addition of `key`, which is there already, a search no longer sees `k`: both lie
      in one leaf, which `k` ends, and at least one key is between them. */
  ghost predicate Drops(s: seq<Item>, key: Key, k: Key) {
    exists i, j :: i + 2 <= j && DropsAt(s, i, j, key, k)
  }

  ghost predicate DropsAt(s: seq<Item>, i: int, j: int, key: Key, k: Key) {
    && 0 <= i <= j < |s| && s[i].Entry? && s[i].key == key && s[j].key == k
    && (forall x :: i <= x <= j ==> s[x].Entry?) && (j + 1 < |s| ==> s[j + 1].Sep?)
  }

  /** In terms of the leaf: at least two keys follow the key, and `k` is the last of them. */
  lemma {:induction false} DropsLast(c: Ctx, t: Tree, at: nat, k: Key)
    requires ProperCtx(c) && t.Leaf? && |t.vs| == |t.ks| && at < |t.ks| && Sorted(Whole(c, t))
    ensures Drops(Whole(c, t), t.ks[at], k) <==> at + 3 <= |t.ks| && k == t.ks[|t.ks| - 1]
  {
    hide Before, After, ProperCtx, Sorted, Drops;
    var s, b, n := Whole(c, t), |Before(c)|, |t.ks|;
    AfterSep(c);
    EntriesAt(t.ks, t.vs);
    forall x | b <= x < b + n ensures s[x] == Entry(t.ks[x - b], t.vs[x - b]) {}
    DropsRun(s, b, n, at, k);
  }

  /** A run of entries that ends at a separator or with the sequence. */
  lemma DropsRun(s: seq<Item>, b: nat, n: nat, at: nat, k: Key)
    requires Sorted(s) && at < n && b + n <= |s| && (forall x :: b <= x < b + n ==> s[x].Entry?)
      && (b + n < |s| ==> s[b + n].Sep?)
    ensures Drops(s, s[b + at].key, k) <==> at + 3 <= n && k == s[b + n - 1].key
  {
    if at + 3 <= n && k == s[b + n - 1].key {
      assert DropsAt(s, b + at, b + n - 1, s[b + at].key, k);
    }
    var key := s[b + at].key;
    forall i, j | DropsAt(s, i, j, key, k) ensures i == b + at && j == b + n - 1 {
      RankUnique(s, i, b + at);
      assert j + 1 < |s| ==> s[j + 1].Sep?;
    }
  }

  lemma RankUnique(s: seq<Item>, i: nat, j: nat)
    requires Sorted(s) && i < |s| && j < |s| && Rank(s[i]) == Rank(s[j])
    ensures i == j
  {
  }

  /** Two keys without a separator between them are looked for in the same leaf. */
  lemma {:induction false} SameLeaf(node: Nodes, lim: nat, t: Tree, key: Key, k: Key, h: nat)
    requires Shape(node, lim, t) && BalKids(t, h, lim) && |t.ks| <= lim && Descends(node, t.p, h) && key <= k
    requires forall x :: x in Items(t) && x.Sep? ==> x.key <= key || k < x.key
    ensures LeafFor(node, t.p, key, h) == LeafFor(node, t.p, k, h)
    decreases t
  {
    if t.Inner? {
      hide Items, ItemsR, ItemsL, Before, After;
      PadFront(t.ks, lim + 1, INVALID_KEY);
      PadFront(Roots(t.kids), lim + 2, NULL);
      assert node[t.p].keys[..node[t.p].n] == t.ks;
      var i := ChildIndex(t.ks, key);
      RootSeps(t);
      ChildUnique(t.ks, k, i);
      assert node[t.p].children[..|t.kids|][i] == Roots(t.kids)[i];
      KidItems(t, i);
      SameLeaf(node, lim, t.kids[i], key, k, h - 1);
    }
  }

  lemma RootSeps(t: Tree)
    requires t.Inner? && |t.kids| == |t.ks| + 1
    ensures forall j :: 0 <= j < |t.ks| ==> Sep(t.ks[j]) in Items(t)
  {
    forall j | 0 <= j < |t.ks| ensures Sep(t.ks[j]) in Items(t) {
      SepInR(t.ks, t.kids[1..], j);
    }
  }

  lemma KidItems(t: Tree, i: nat)
    requires t.Inner? && |t.kids| == |t.ks| + 1 && i < |t.kids|
    ensures forall x :: x in Items(t.kids[i]) ==> x in Items(t)
  {
    hide Items;
    IntoItems(Top, t, i);
    assert Before(Top) + Items(t) + After(Top) == Items(t);
  }

  lemma NoSepBetween(s: seq<Item>, i: int, j: int, key: Key, k: Key)
    requires Sorted(s) && DropsAt(s, i, j, key, k)
    ensures key <= k && forall x :: x in s && x.Sep? ==> x.key <= key || k < x.key
  {
    forall x | x in s && x.Sep? ensures x.key <= key || k < x.key {
      var y :| 0 <= y < |s| && s[y] == x;
      assert y < i || y > j;
      assert if y < i then Rank(s[y]) < Rank(s[i]) else Rank(s[j]) < Rank(s[y]);
    }
    assert i < j ==> Rank(s[i]) < Rank(s[j]);
  }

  /** The visible slots after the shift: the key behind the one in slot `at` is there twice, and
      what does not fit any more is out of sight. */
  lemma OpenedFront<T>(s: seq<T>, at: nat, len: nat, pad: T)
    requires at < |s| < len
    ensures |Opened(s, at + 1, len, pad)| == len
    ensures Opened(s, at + 1, len, pad)[..|s|] == if at + 2 < |s| then s[..at + 2] + s[at + 1..|s| - 1] else s
  {
  }

  lemma OpenedScan(lim: nat, ks: seq<Key>, vs: seq<Val>, at: nat, k: Key)
    requires |vs| == |ks| <= lim && at < |ks| && forall i, j :: 0 <= i < j < |ks| ==> ks[i] != ks[j]
    ensures var x := LeafNode(lim, ks, vs);
            var y := x.(keys := Opened(ks, at + 1, lim + 1, INVALID_KEY), vals := Opened(vs, at + 1, lim + 1, NULL));
            && LikeLeaf(x, y) && x.n == |ks| <= |x.keys| == |x.vals|
            && Scan(y, k) == if at + 3 <= |ks| && k == ks[|ks| - 1] then Missing else Scan(x, k)
  {
    hide Opened, Pad, Among;
    var n := |ks|;
    PadFront(ks, lim + 1, INVALID_KEY);
    PadFront(vs, lim + 1, NULL);
    OpenedFront(ks, at, lim + 1, INVALID_KEY);
    OpenedFront(vs, at, lim + 1, NULL);
    if at + 2 < n {
      ShiftedScan(ks, vs, at, k);
    }
  }

  lemma ShiftedScan(ks: seq<Key>, vs: seq<Val>, at: nat, k: Key)
    requires |vs| == |ks| && at + 2 < |ks| && forall i, j :: 0 <= i < j < |ks| ==> ks[i] != ks[j]
    ensures var n := |ks|;
            Among(ks[..at + 2] + ks[at + 1..n - 1], vs[..at + 2] + vs[at + 1..n - 1], k)
            == if k == ks[n - 1] then Missing else Among(ks, vs, k)
  {
    var n := |ks|;
    var ks' := ks[..at + 2] + ks[at + 1..n - 1];
    var i := IndexOf(ks, k);
    if i < n - 1 {
      IndexUnique(ks', k, if i < at + 2 then i else i + 1);
    } else if i == n {
      forall j | 0 <= j < n ensures ks'[j] != k {}
    } else {
      IndexUnique(ks, k, n - 1);
    }
  }

  /** What searches see after a duplicate: exactly the keys that drop out of sight are missing. */
  lemma DupSeen(m: Mem, m': Mem, lim: nat, tree: Tree, h: nat, c: Ctx, t: Tree, at: nat, k: Key)
    requires Held(m, lim, Top, tree) && Bal(tree, h, lim, RootMin(tree)) && Sorted(Items(tree))
    requires Held(m, lim, c, t) && t.Leaf? && |t.vs| == |t.ks| <= lim && at < |t.ks| && ProperCtx(c)
      && Whole(c, t) == Items(tree)
    requires Descends(m.node, m.root, h) && t.p == LeafFor(m.node, m.root, t.ks[at], h)
    requires m' == m.(node := m.node[t.p := m.node[t.p].(keys := Opened(t.ks, at + 1, lim + 1, INVALID_KEY),
                                                         vals := Opened(t.vs, at + 1, lim + 1, NULL))])
    ensures Descends(m'.node, m'.root, h)
    ensures Seen(m'.node, m'.root, k, h) == if Drops(Items(tree), t.ks[at], k) then Missing
      else Lookup(Contents(Items(tree)), k)
  {
    hide Held, Items, Sorted, BalKids, Contents, Opened, Drops, Bal, ProperCtx, Pad, Scan, LeafFor, Descends;
    SeenMap(m, lim, tree, h, k);
    LeafScan(m, lim, c, t, k);
    LeafDistinct(c, t);
    OpenedScan(lim, t.ks, t.vs, at, k);
    SameWalk(m.node, t.p, m'.node[t.p], m.root, k, h);
    DropsLast(c, t, at, k);
    if Drops(Items(tree), t.ks[at], k) {
      DroppedHere(m, lim, tree, h, t.ks[at], k);
    }
  }

  lemma DroppedHere(m: Mem, lim: nat, tree: Tree, h: nat, key: Key, k: Key)
    requires Held(m, lim, Top, tree) && Bal(tree, h, lim, RootMin(tree)) && Sorted(Items(tree))
      && Drops(Items(tree), key, k)
    requires Descends(m.node, m.root, h)
    ensures LeafFor(m.node, m.root, key, h) == LeafFor(m.node, m.root, k, h)
  {
    hide Items, Sorted, BalKids, DropsAt;
    HeldRoot(m, lim, tree);
    var i, j :| i + 2 <= j && DropsAt(Items(tree), i, j, key, k);
    NoSepBetween(Items(tree), i, j, key, k);
    SameLeaf(m.node, lim, tree, key, k, h);
  }

  lemma LeafDistinct(c: Ctx, t: Tree)
    requires ProperCtx(c) && t.Leaf? && |t.vs| == |t.ks| && Sorted(Whole(c, t))
    ensures forall i, j :: 0 <= i < j < |t.ks| ==> t.ks[i] != t.ks[j]
  {
    hide Before, After;
    EntriesAt(t.ks, t.vs);
    var s, b := Whole(c, t), |Before(c)|;
    forall i, j | 0 <= i < j < |t.ks| ensures t.ks[i] != t.ks[j] {
      assert s[b + i] == Entry(t.ks[i], t.vs[i]) && s[b + j] == Entry(t.ks[j], t.vs[j]);
    }
  }
}
