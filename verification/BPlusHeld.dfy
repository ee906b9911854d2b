/** What the memory holds between the steps of an insertion or a deletion: a path `c` and
    the subtree `t` at its end (`Held`), or in addition a detached right half (`HeldPair`). */
module BPlusHeld {
  import opened List
  import opened BPlusModel
  import opened BPlusStore
  import opened BPlusArrays

  datatype Mem = Mem(node: Nodes, link: Links, root: Ptr)

  ghost predicate Sound(m: Mem) {
    && m.node.Keys == m.link.Keys && NULL !in m.node
    && Linked(m.node, m.link)
    && m.root in m.link && m.link[m.root] == UNLINKED
  }

  lemma StillSound(m: Mem, m': Mem)
    requires Sound(m) && m'.node.Keys == m.node.Keys && m'.link.Keys == m.link.Keys && m'.root == m.root
    requires Linked(m'.node, m'.link) && m.root in m'.link && m'.link[m.root] == m.link[m.root]
    ensures Sound(m')
  {
    hide Linked;
  }

  /** Every node of the memory is on the path, beside it or in the subtree, exactly once. */
  ghost predicate Held(m: Mem, lim: nat, c: Ctx, t: Tree) {
    && Sound(m)
    && CtxShape(m.node, lim, c, t.p) && Shape(m.node, lim, t)
    && CtxPtrs(c) + Ptrs(t) == multiset(m.node.Keys)
    && RootPtr(c, t.p) == m.root
  }

  ghost predicate HeldPair(m: Mem, lim: nat, c: Ctx, tl: Tree, tr: Tree) {
    && Sound(m)
    && CtxShape(m.node, lim, c, tl.p) && Shape(m.node, lim, tl) && Shape(m.node, lim, tr)
    && CtxPtrs(c) + Ptrs(tl) + Ptrs(tr) == multiset(m.node.Keys)
    && RootPtr(c, tl.p) == m.root
    && tr.p in m.link && m.link[tr.p] == UNLINKED
  }

  lemma {:induction false} RootIn(kids: seq<Tree>, i: nat)
    requires i < |kids|
    ensures kids[i].p in PtrsOf(kids)
  {
    KidPtrs(kids, i);
  }

  /** An address is counted at most once over all the parts of the memory. */
  lemma Once(s: set<Ptr>, p: Ptr, a: multiset<Ptr>, b: multiset<Ptr>, d: multiset<Ptr>, e: multiset<Ptr>,
             f: multiset<Ptr>, x: Ptr)
    requires multiset{p} + a + b + d + e + f == multiset(s)
    ensures (if x == p then 1 else 0) + a[x] + b[x] + d[x] + e[x] + f[x] == if x in s then 1 else 0
  {
    var m := multiset{p} + a + b + d + e + f;
    assert m[x] == multiset{p}[x] + a[x] + b[x] + d[x] + e[x] + f[x];
  }

  lemma {:induction false} KidsLinked(m: Mem, lim: nat, p: Ptr, ks: seq<Key>, cs: seq<Ptr>)
    requires Sound(m) && p in m.node && m.node[p] == InnerNode(lim, ks, cs) && |cs| <= lim + 2
    requires NULL !in cs
    ensures LinkedKids(m.link, p, cs)
  {
    forall j | 0 <= j < |cs| ensures cs[j] in m.link && m.link[cs[j]] == Link(p, j) {
      PadAt(cs, lim + 2, NULL, j);
      assert m.node[p].children[j] == cs[j];
    }
  }

  ghost function CtxKids(c: Ctx, hole: Ptr): seq<Ptr>
    requires c.Hole?
  {
    Roots(c.ls) + [hole] + Roots(c.rs)
  }

  /** The children of the node above the hole are distinct, and none is the extra node `x`. */
  lemma {:induction false} CtxKidsDistinct(s: set<Ptr>, c: Ctx, tl: Tree, rest: multiset<Ptr>)
    requires c.Hole? && CtxPtrs(c) + Ptrs(tl) + rest == multiset(s) && NULL !in s
    ensures NULL !in CtxKids(c, tl.p) && c.p !in CtxKids(c, tl.p)
    ensures forall x :: x in rest ==> x !in CtxKids(c, tl.p) && x != c.p
    ensures forall j :: 0 <= j < |CtxKids(c, tl.p)| && j != |c.ls| ==> CtxKids(c, tl.p)[j] != tl.p
  {
    hide PtrsOf, Ptrs;
    var a, b, d := PtrsOf(c.ls), PtrsOf(c.rs), CtxPtrs(c.up);
    var cs := CtxKids(c, tl.p);
    RootCounted(tl);
    forall j | 0 <= j < |cs|
      ensures cs[j] != NULL && cs[j] != c.p && cs[j] !in rest && (j != |c.ls| ==> cs[j] != tl.p)
    {
      Once(s, c.p, a, b, d, Ptrs(tl), rest, cs[j]);
      if j < |c.ls| {
        RootIn(c.ls, j);
      } else if j > |c.ls| {
        assert cs[j] == c.rs[j - |c.ls| - 1].p;
        RootIn(c.rs, j - |c.ls| - 1);
      }
    }
    forall x | x in rest ensures x != c.p {
      Once(s, c.p, a, b, d, Ptrs(tl), rest, x);
    }
  }

  lemma RootCounted(t: Tree)
    ensures t.p in Ptrs(t)
  {
  }

  lemma HoleCounted(c: Ctx)
    requires c.Hole?
    ensures c.p in CtxPtrs(c)
  {
  }

  lemma {:induction false} RootOnPath(c: Ctx, hole: Ptr)
    requires c.Hole?
    ensures RootPtr(c, hole) in CtxPtrs(c)
    decreases c
  {
    if c.up.Hole? {
      RootOnPath(c.up, c.p);
    }
  }

  /** Changing one node leaves every part of the memory alone that does not contain it. */
  lemma SameOnChain(node: Nodes, node1: Nodes, node2: Nodes, p: Ptr, rest: multiset<Ptr>)
    requires SameOn(node, node1, rest) && SameOn(node1, node2, multiset{p} + rest) && p in node1
    ensures SameOn(node, node2, rest) && p in node2 && node2[p] == node1[p]
  {
  }

  lemma FrameOne(node: Nodes, p: Ptr, nd: Node, ps: multiset<Ptr>)
    requires p !in ps
    ensures SameOn(node, node[p := nd], ps)
  {
  }

  /** The parts around the node above the hole survive a change to that node. */
  lemma {:induction false} AboveFrame(node: Nodes, lim: nat, c: Ctx, tl: Tree, rest: multiset<Ptr>, nd: Node)
    requires c.Hole? && CtxPtrs(c) + Ptrs(tl) + rest == multiset(node.Keys)
    requires CtxShape(node, lim, c, tl.p) && Shape(node, lim, tl)
    ensures Shapes(node[c.p := nd], lim, c.ls) && Shapes(node[c.p := nd], lim, c.rs)
    ensures CtxShape(node[c.p := nd], lim, c.up, c.p) && Shape(node[c.p := nd], lim, tl)
  {
    hide PtrsOf, Ptrs, Shape, InnerNode;
    var node' := node[c.p := nd];
    Once(node.Keys, c.p, PtrsOf(c.ls), PtrsOf(c.rs), CtxPtrs(c.up), Ptrs(tl), rest, c.p);
    FrameOne(node, c.p, nd, PtrsOf(c.ls));
    FrameOne(node, c.p, nd, PtrsOf(c.rs));
    FrameOne(node, c.p, nd, CtxPtrs(c.up));
    FrameOne(node, c.p, nd, Ptrs(tl));
    ShapesFrame(node, node', lim, c.ls);
    ShapesFrame(node, node', lim, c.rs);
    CtxFrame(node, node', lim, c.up, c.p);
    ShapeFrame(node, node', lim, tl);
  }

  lemma {:induction false} ForkedRoots(c: Ctx, tl: Tree, tr: Tree)
    requires c.Hole?
    ensures Roots(c.ls + [tl, tr] + c.rs) == Forked(CtxKids(c, tl.p), |c.ls|, tl.p, tr.p)
  {
    var a, b := Roots(c.ls + [tl, tr] + c.rs), Forked(CtxKids(c, tl.p), |c.ls|, tl.p, tr.p);
    var n := |c.ls|;
    assert |a| == |b| == n + 2 + |c.rs|;
    assert CtxKids(c, tl.p)[n + 1..] == Roots(c.rs);
    forall i | 0 <= i < |a| ensures a[i] == b[i] {
      if i >= n + 2 {
        assert a[i] == c.rs[i - n - 2].p == Roots(c.rs)[i - n - 2];
      }
    }
  }

  lemma {:induction false} ForkedPtrs(c: Ctx, tl: Tree, tr: Tree)
    requires c.Hole?
    ensures PtrsOf(c.ls + [tl, tr] + c.rs) == PtrsOf(c.ls) + Ptrs(tl) + Ptrs(tr) + PtrsOf(c.rs)
  {
    hide Ptrs;
    assert c.ls + [tl, tr] + c.rs == c.ls + [tl] + ([tr] + c.rs);
    PtrsAround(c.ls, tl, [tr] + c.rs);
    assert ([tr] + c.rs)[1..] == c.rs && ([tr] + c.rs)[0] == tr;
  }

  /** The right half is not the root, and no node claims it yet. */
  lemma {:induction false} NewKidFree(m: Mem, lim: nat, c: Ctx, tl: Tree, tr: Tree)
    requires HeldPair(m, lim, c, tl, tr) && c.Hole?
    ensures tr.p in m.link && tr.p != m.root && !Attached(m.node, m.link, tr.p)
  {
    hide PtrsOf, Ptrs, Shape, InnerNode;
    RootCounted(tr);
    RootOnPath(c, tl.p);
    Once(m.node.Keys, c.p, PtrsOf(c.ls), PtrsOf(c.rs), CtxPtrs(c.up), Ptrs(tl), Ptrs(tr), tr.p);
  }

  /** Writing the two halves into the node above keeps all links exact. */
  lemma {:induction false} ForkLinked(m: Mem, lim: nat, c: Ctx, tl: Tree, key: Key, tr: Tree, link': Links)
    requires HeldPair(m, lim, c, tl, tr) && c.Hole? && |c.ks| == |c.ls| + |c.rs| <= lim
    requires LinkedKids(link', c.p, Forked(CtxKids(c, tl.p), |c.ls|, tl.p, tr.p))
    requires OnlyRelinks(m.link, link', Forked(CtxKids(c, tl.p), |c.ls|, tl.p, tr.p))
    ensures Sound(Mem(m.node[c.p :=
      InnerNode(lim, InsertAt(c.ks, |c.ls|, key), Forked(CtxKids(c, tl.p), |c.ls|, tl.p, tr.p))],
                      link', m.root))
  {
    hide PtrsOf, Ptrs, Shape, InnerNode;
    var cs := CtxKids(c, tl.p);
    var cs' := Forked(cs, |c.ls|, tl.p, tr.p);
    CtxKidsDistinct(m.node.Keys, c, tl, Ptrs(tr));
    KidsLinked(m, lim, c.p, c.ks, cs);
    forall x | x in cs' ensures x in m.link && x != m.root
      && (m.link[x].parent == c.p || !Attached(m.node, m.link, x)) {
      if x in cs {
        var j :| 0 <= j < |cs| && cs[j] == x;
      } else {
        NewKidFree(m, lim, c, tl, tr);
      }
    }
    hide Attached, LinkedKids, OnlyRelinks;
    LinkedUpdate(m.node, m.link, link', lim, c.p, InsertAt(c.ks, |c.ls|, key), cs');
  }

  lemma ForkedAll(c: Ctx, tl: Tree, key: Key, tr: Tree)
    requires c.Hole? && |c.ls| <= |c.ks|
    ensures CtxPtrs(c.up) + Ptrs(ForkedTree(c, tl, key, tr)) == CtxPtrs(c) + Ptrs(tl) + Ptrs(tr)
  {
    hide PtrsOf;
    ForkedPtrs(c, tl, tr);
  }

  lemma {:induction false} ForkHeld(m: Mem, lim: nat, c: Ctx, tl: Tree, key: Key, tr: Tree, link': Links)
    requires HeldPair(m, lim, c, tl, tr) && c.Hole? && |c.ks| == |c.ls| + |c.rs| <= lim
    requires LinkedKids(link', c.p, Forked(CtxKids(c, tl.p), |c.ls|, tl.p, tr.p))
    requires OnlyRelinks(m.link, link', Forked(CtxKids(c, tl.p), |c.ls|, tl.p, tr.p))
    ensures Held(Mem(m.node[c.p :=
      InnerNode(lim, InsertAt(c.ks, |c.ls|, key), Forked(CtxKids(c, tl.p), |c.ls|, tl.p, tr.p))],
                     link', m.root), lim, c.up, ForkedTree(c, tl, key, tr))
  {
    hide PtrsOf, InnerNode, Linked, Forked, LinkedKids, OnlyRelinks, InsertAt;
    hide CtxKids, Roots, Shapes;
    var nd := InnerNode(lim, InsertAt(c.ks, |c.ls|, key), Forked(CtxKids(c, tl.p), |c.ls|, tl.p, tr.p));
    ForkLinked(m, lim, c, tl, key, tr, link');
    AboveFrame(m.node, lim, c, tl, Ptrs(tr), nd);
    ForkedRoots(c, tl, tr);
    Once(m.node.Keys, c.p, PtrsOf(c.ls), PtrsOf(c.rs), CtxPtrs(c.up), Ptrs(tl), Ptrs(tr), c.p);
    FrameOne(m.node, c.p, nd, Ptrs(tr));
    ShapeFrame(m.node, m.node[c.p := nd], lim, tr);
    ForkedAll(c, tl, key, tr);
    hide Ptrs, CtxPtrs;
    var n, node' := ForkedTree(c, tl, key, tr), m.node[c.p := nd];
    KidsAround(node', lim, c.ls, tl, tr, c.rs);
    assert node'.Keys == m.node.Keys;
    assert node'[n.p] == InnerNode(lim, n.ks, Roots(n.kids));
    assert CtxPtrs(c.up) + Ptrs(n) == multiset(m.node.Keys);
    hide Sound;
    assert RootPtr(c.up, n.p) == m.root;
  }

  lemma KidsAround(node: Nodes, lim: nat, ls: seq<Tree>, tl: Tree, tr: Tree, rs: seq<Tree>)
    requires Shapes(node, lim, ls) && Shape(node, lim, tl) && Shape(node, lim, tr) && Shapes(node, lim, rs)
    ensures Shapes(node, lim, ls + [tl, tr] + rs)
  {
    hide Shape;
    var kids := ls + [tl, tr] + rs;
    forall i | 0 <= i < |kids| ensures Shape(node, lim, kids[i]) {
      if i < |ls| {
        assert kids[i] == ls[i];
      } else if i > |ls| + 1 {
        assert kids[i] == rs[i - |ls| - 2];
      }
    }
  }

  lemma {:induction false} PairPtrs(p: Ptr, key: Key, tl: Tree, tr: Tree)
    ensures Ptrs(Inner(p, [key], [tl, tr])) == multiset{p} + Ptrs(tl) + Ptrs(tr)
    ensures Roots([tl, tr]) == [tl.p, tr.p]
  {
    assert [tl, tr][1..] == [tr] && [tr][1..] == [];
    assert PtrsOf([tr]) == Ptrs(tr) + PtrsOf([]);
  }

  lemma {:induction false} NewRootLinked(m: Mem, lim: nat, key: Key, l: Ptr, r: Ptr, p: Ptr, link': Links)
    requires Sound(m) && p !in m.node && p != NULL && lim >= 2
    requires l in m.link && r in m.link && m.link[l] == UNLINKED && m.link[r] == UNLINKED
    requires LinkedKids(link', p, [l, r]) && OnlyRelinks(m.link[p := UNLINKED], link', [l, r])
    ensures Sound(Mem(m.node[p := InnerNode(lim, [key], [l, r])], link', p))
  {
    hide InnerNode;
    LinkedUpdate(m.node, m.link[p := UNLINKED], link', lim, p, [key], [l, r]);
    assert m.link[p := UNLINKED].Keys == m.link.Keys + {p};
  }

  lemma {:induction false} NewRootHeld(m: Mem, lim: nat, tl: Tree, key: Key, tr: Tree, p: Ptr, link': Links)
    requires HeldPair(m, lim, Top, tl, tr) && p !in m.node && p != NULL && lim >= 2
    requires LinkedKids(link', p, [tl.p, tr.p]) && OnlyRelinks(m.link[p := UNLINKED], link', [tl.p, tr.p])
    ensures Held(Mem(m.node[p := InnerNode(lim, [key], [tl.p, tr.p])], link', p), lim, Top, Inner(p, [key], [tl, tr]))
  {
    hide InnerNode, LinkedKids, OnlyRelinks, Linked, Ptrs, PtrsOf;
    var nd := InnerNode(lim, [key], [tl.p, tr.p]);
    var node' := m.node[p := nd];
    assert Ptrs(tl) + Ptrs(tr) == multiset(m.node.Keys) by {
      assert CtxPtrs(Top) == multiset{};
    }
    Apart(m.node.Keys, Ptrs(tl), Ptrs(tr), p);
    FrameOne(m.node, p, nd, Ptrs(tl));
    FrameOne(m.node, p, nd, Ptrs(tr));
    ShapeFrame(m.node, node', lim, tl);
    ShapeFrame(m.node, node', lim, tr);
    NewRootLinked(m, lim, key, tl.p, tr.p, p, link');
    PairPtrs(p, key, tl, tr);
    assert node'.Keys == m.node.Keys + {p};
    assert Shapes(node', lim, [tl, tr]);
    assert multiset(m.node.Keys + {p}) == multiset(m.node.Keys) + multiset{p};
  }

  lemma Apart(s: set<Ptr>, a: multiset<Ptr>, b: multiset<Ptr>, x: Ptr)
    requires a + b == multiset(s)
    ensures a[x] + b[x] == if x in s then 1 else 0
  {
    assert (a + b)[x] == a[x] + b[x];
  }

  lemma {:induction false} LeafHeld(m: Mem, lim: nat, c: Ctx, t: Tree, ks: seq<Key>, vs: seq<Val>)
    requires Held(m, lim, c, t) && t.Leaf?
    ensures Held(Mem(m.node[t.p := LeafNode(lim, ks, vs)], m.link, m.root), lim, c, Leaf(t.p, ks, vs))
  {
    hide LeafNode;
    var node' := m.node[t.p := LeafNode(lim, ks, vs)];
    Apart(m.node.Keys, CtxPtrs(c), Ptrs(t), t.p);
    FrameOne(m.node, t.p, LeafNode(lim, ks, vs), CtxPtrs(c));
    CtxFrame(m.node, node', lim, c, t.p);
    LinkedLeaf(m.node, m.link, lim, t.p, ks, vs);
    assert node'.Keys == m.node.Keys;
  }

  lemma {:induction false} LeafSplitHeld(m: Mem, lim: nat, c: Ctx, t: Tree, r: Ptr, ks: seq<Key>, vs: seq<Val>,
                                         ks': seq<Key>, vs': seq<Val>)
    requires Held(m, lim, c, t) && t.Leaf? && r !in m.node && r != NULL
    ensures HeldPair(Mem(m.node[t.p := LeafNode(lim, ks, vs)][r := LeafNode(lim, ks', vs')], m.link[r := UNLINKED],
      m.root),
                     lim, c, Leaf(t.p, ks, vs), Leaf(r, ks', vs'))
  {
    hide LeafNode, Linked;
    LeafHeld(m, lim, c, t, ks, vs);
    var node' := m.node[t.p := LeafNode(lim, ks, vs)];
    var node'' := node'[r := LeafNode(lim, ks', vs')];
    Apart(m.node.Keys, CtxPtrs(c), Ptrs(t), r);
    FrameOne(node', r, LeafNode(lim, ks', vs'), CtxPtrs(c));
    CtxFrame(node', node'', lim, c, t.p);
    LinkedLeaf(node', m.link, lim, r, ks', vs');
    LinkedMore(node'', m.link, r);
    assert node''.Keys == m.node.Keys + {r};
    assert Ptrs(Leaf(r, ks', vs')) == multiset{r};
  }

  lemma LinkedMore(node: Nodes, link: Links, r: Ptr)
    requires Linked(node, link) && r !in link
    ensures Linked(node, link[r := UNLINKED])
  {
  }

  lemma {:induction false} KidRoots(kids: seq<Tree>, s: set<Ptr>, rest: multiset<Ptr>)
    requires PtrsOf(kids) + rest == multiset(s)
    ensures Distinct(Roots(kids)) && forall j :: 0 <= j < |kids| ==> kids[j].p in s && kids[j].p !in rest
    decreases |kids|
  {
    if kids != [] {
      var r := Roots(kids);
      assert PtrsOf(kids[1..]) + (Ptrs(kids[0]) + rest) == multiset(s);
      KidRoots(kids[1..], s, Ptrs(kids[0]) + rest);
      RootCounted(kids[0]);
      Apart(s, PtrsOf(kids), rest, kids[0].p);
      forall j | 0 <= j < |kids| ensures kids[j].p in s && kids[j].p !in rest && (j > 0 ==> kids[j].p != kids[0].p) {
        if j > 0 {
          assert kids[1..][j - 1] == kids[j];
        }
      }
      forall i, j | 0 <= i < j < |r| ensures r[i] != r[j] {
        if i > 0 {
          assert Roots(kids[1..])[i - 1] == r[i] && Roots(kids[1..])[j - 1] == r[j];
        }
      }
    }
  }

  /** A child that is cut off is not the root, and no node claims it any more. */
  lemma CutFree(m: Mem, lim: nat, p: Ptr, r: Ptr, ks: seq<Key>, cs: seq<Ptr>, mid: nat, k: nat)
    requires Sound(m) && p in m.node && m.node[p] == InnerNode(lim, ks, cs) && LinkedKids(m.link, p, cs)
    requires |cs| == |ks| + 1 == lim + 2 && mid < k < |cs| && NULL !in cs && r !in m.node
    ensures !Attached(m.node[p := InnerNode(lim, ks[..mid], cs[..mid + 1])], m.link[r := UNLINKED], cs[k])
      && cs[k] != r && cs[k] != m.root
  {
    hide InnerNode, Linked;
    InnerFields(lim, ks[..mid], cs[..mid + 1]);
    PadAt(cs[..mid + 1], lim + 2, NULL, k);
  }

  lemma {:induction false} SplitLinked(m: Mem, lim: nat, p: Ptr, r: Ptr, ks: seq<Key>, cs: seq<Ptr>, mid: nat)
    requires Sound(m) && p in m.node && m.node[p] == InnerNode(lim, ks, cs)
    requires |cs| == |ks| + 1 == lim + 2 && mid < |ks| && Distinct(cs) && NULL !in cs
    requires r !in m.node && r != NULL
    ensures var node' :=
      m.node[p := InnerNode(lim, ks[..mid], cs[..mid + 1])][r := InnerNode(lim, ks[mid + 1..], cs[mid + 1..])];
            var link' := Adopted(m.link[r := UNLINKED], r, cs[mid + 1..]);
            Sound(Mem(node', link', m.root)) && r in link' && link'[r] == UNLINKED
  {
    hide InnerNode, Linked, Adopted;
    var a, b := cs[..mid + 1], cs[mid + 1..];
    var node1 := m.node[p := InnerNode(lim, ks[..mid], a)];
    var link1 := m.link[r := UNLINKED];
    var link' := Adopted(link1, r, b);
    KidsLinked(m, lim, p, ks, cs);
    LinkedUpdate(m.node, m.link, m.link, lim, p, ks[..mid], a);
    LinkedMore(node1, m.link, r);
    AdoptedLinks(link1, r, b);
    forall j | 0 <= j < |b| ensures !Attached(node1, link1, b[j]) && b[j] != r && b[j] != m.root {
      CutFree(m, lim, p, r, ks, cs, mid, mid + 1 + j);
    }
    hide Attached, LinkedKids;
    LinkedUpdate(node1, link1, link', lim, r, ks[mid + 1..], b);
    assert link1.Keys == m.link.Keys + {r};
  }

  lemma {:induction false} InnerSplitHeld(m: Mem, lim: nat, c: Ctx, t: Tree, r: Ptr, mid: nat)
    requires Held(m, lim, c, t) && t.Inner? && |t.kids| == |t.ks| + 1 == lim + 2 && mid < |t.ks|
    requires r !in m.node && r != NULL
    ensures var cs := Roots(t.kids);
            var node' := m.node[t.p := InnerNode(lim, t.ks[..mid], cs[..mid + 1])][r :=
              InnerNode(lim, t.ks[mid + 1..], cs[mid + 1..])];
            HeldPair(Mem(node', Adopted(m.link[r := UNLINKED], r, cs[mid + 1..]), m.root), lim, c,
                     Inner(t.p, t.ks[..mid], t.kids[..mid + 1]), Inner(r, t.ks[mid + 1..], t.kids[mid + 1..]))
  {
    hide InnerNode, Linked, Adopted, PtrsOf, Shapes, CtxShape;
    var cs, a, b := Roots(t.kids), t.kids[..mid + 1], t.kids[mid + 1..];
    RootsSlice(t.kids, mid + 1);
    var nd, nd' := InnerNode(lim, t.ks[..mid], cs[..mid + 1]), InnerNode(lim, t.ks[mid + 1..], cs[mid + 1..]);
    var node' := m.node[t.p := nd][r := nd'];
    var rest := CtxPtrs(c) + multiset{t.p};
    assert PtrsOf(t.kids) + rest == multiset(m.node.Keys);
    KidRoots(t.kids, m.node.Keys, rest);
    SplitLinked(m, lim, t.p, r, t.ks, cs, mid);
    assert t.kids == a + b;
    PtrsAppend(a, b);
    SplitFrames(m.node, lim, c, t, r, mid, nd, nd');
    assert node'.Keys == m.node.Keys + {r};
    assert multiset(m.node.Keys + {r}) == multiset(m.node.Keys) + multiset{r};
  }

  lemma RootsSlice(kids: seq<Tree>, i: nat)
    requires i <= |kids|
    ensures |Roots(kids)| == |kids| && Roots(kids[..i]) == Roots(kids)[..i] && Roots(kids[i..]) == Roots(kids)[i..]
  {
  }

  /** Rewriting a node and a fresh one leaves the path and the node's children as they were. */
  lemma {:induction false} SplitFrames(node: Nodes, lim: nat, c: Ctx, t: Tree, r: Ptr, mid: nat, nd: Node, nd': Node)
    requires CtxShape(node, lim, c, t.p) && Shape(node, lim, t) && CtxPtrs(c) + Ptrs(t) == multiset(node.Keys)
    requires t.Inner? && mid < |t.kids| && r !in node
    ensures t.p in node
    ensures var node' := node[t.p := nd][r := nd'];
            && CtxShape(node', lim, c, t.p)
            && Shapes(node', lim, t.kids[..mid + 1]) && Shapes(node', lim, t.kids[mid + 1..])
  {
    hide InnerNode, PtrsOf, Shapes, CtxShape, CtxPtrs;
    var a, b := t.kids[..mid + 1], t.kids[mid + 1..];
    assert t.kids == a + b;
    PtrsAppend(a, b);
    Once(node.Keys, t.p, PtrsOf(a), PtrsOf(b), CtxPtrs(c), multiset{}, multiset{}, t.p);
    Once(node.Keys, t.p, PtrsOf(a), PtrsOf(b), CtxPtrs(c), multiset{}, multiset{}, r);
    FrameTwo(node, t.p, r, nd, nd', CtxPtrs(c));
    FrameTwo(node, t.p, r, nd, nd', PtrsOf(a));
    FrameTwo(node, t.p, r, nd, nd', PtrsOf(b));
    var node' := node[t.p := nd][r := nd'];
    CtxFrame(node, node', lim, c, t.p);
    ShapesSlice(node, lim, t.kids, mid + 1);
    ShapesFrame(node, node', lim, a);
    ShapesFrame(node, node', lim, b);
  }

  lemma ShapesSlice(node: Nodes, lim: nat, kids: seq<Tree>, i: nat)
    requires Shapes(node, lim, kids) && i <= |kids|
    ensures Shapes(node, lim, kids[..i]) && Shapes(node, lim, kids[i..])
  {
    hide Shape;
  }

  lemma FrameTwo(node: Nodes, p: Ptr, q: Ptr, nd: Node, nd': Node, ps: multiset<Ptr>)
    requires p !in ps && q !in ps
    ensures SameOn(node, node[p := nd][q := nd'], ps)
  {
  }

  /** Seen from the root, a path and its subtree are one tree. */
  lemma {:induction false} HeldPlug(m: Mem, lim: nat, c: Ctx, t: Tree)
    requires Held(m, lim, c, t)
    ensures Held(m, lim, Top, Plug(c, t))
  {
    hide Shape, CtxShape, Ptrs, Linked;
    PlugShape(m.node, lim, c, t);
    PlugPtrs(c, t);
    PlugRoot(c, t);
    TopShape(m.node, lim, Plug(c, t).p);
    assert CtxPtrs(Top) == multiset{};
  }

  lemma TopShape(node: Nodes, lim: nat, hole: Ptr)
    ensures CtxShape(node, lim, Top, hole)
  {
  }

  /** All that adding a separator to the node above the hole relies on. */
  lemma {:induction false} ForkReady(m: Mem, lim: nat, c: Ctx, tl: Tree, key: Key, tr: Tree, h: nat)
    requires HeldPair(m, lim, c, tl, tr) && c.Hole? && BalCtx(c, h, lim) && ProperCtx(c)
    requires Sorted(PairItems(c, tl, key, tr)) && ValidKeys(PairItems(c, tl, key, tr))
    ensures var cs := CtxKids(c, tl.p);
      && |c.ks| == |c.ls| + |c.rs| <= lim && c.p in m.node && m.node[c.p] == InnerNode(lim, c.ks, cs)
      && LinkedKids(m.link, c.p, cs) && INVALID_KEY !in c.ks && key != INVALID_KEY
      && Slot(c.ks, key, |c.ls|) && key !in c.ks && |cs| == |c.ks| + 1
      && tl.p in m.link && tr.p in m.link && tl.p != tr.p && tr.p !in cs && tl.p != NULL && tr.p != NULL
      && forall j :: 0 <= j < |cs| && j != |c.ls| ==> cs[j] != tl.p
  {
    hide PtrsOf, Ptrs, InnerNode, Linked, LinkedKids, AllBal;
    CtxKidsDistinct(m.node.Keys, c, tl, Ptrs(tr));
    KidsLinked(m, lim, c.p, c.ks, CtxKids(c, tl.p));
    RootCounted(tr);
    PairOrder(c, tl, key, tr);
    PairKeys(c, tl, key, tr);
    assert CtxKids(c, tl.p)[|c.ls|] == tl.p;
  }

  lemma {:induction false} PairKeys(c: Ctx, tl: Tree, key: Key, tr: Tree)
    requires c.Hole? && ProperCtx(c) && ValidKeys(PairItems(c, tl, key, tr))
    ensures key < INVALID_KEY && forall j :: 0 <= j < |c.ks| ==> c.ks[j] < INVALID_KEY
  {
    var m := Items(tl) + [Sep(key)] + Items(tr);
    assert Sep(key) in m;
    assert forall x :: x in m || x in Before(c) || x in After(c) ==> x in PairItems(c, tl, key, tr);
    forall j | 0 <= j < |c.ks| ensures c.ks[j] < INVALID_KEY {
      SepInCtx(c, j);
    }
    assert Sep(key) in PairItems(c, tl, key, tr);
  }

  lemma {:induction false} NewRootReady(m: Mem, lim: nat, tl: Tree, key: Key, tr: Tree)
    requires HeldPair(m, lim, Top, tl, tr) && ValidKeys(PairItems(Top, tl, key, tr))
    ensures tl.p in m.link && tr.p in m.link && tl.p != tr.p && tl.p != NULL && tr.p != NULL && key < INVALID_KEY
  {
    hide Shape, Linked, Ptrs;
    RootCounted(tl);
    RootCounted(tr);
    assert CtxPtrs(Top) == multiset{};
    assert Ptrs(tl) + Ptrs(tr) == multiset(m.node.Keys);
    Apart(m.node.Keys, Ptrs(tl), Ptrs(tr), tr.p);
    Apart(m.node.Keys, Ptrs(tl), Ptrs(tr), tl.p);
    assert Sep(key) in PairItems(Top, tl, key, tr) by {
      assert Sep(key) in Items(tl) + [Sep(key)] + Items(tr);
    }
  }

  /** The end of the climb: the subtree fits, so the whole tree is in order again. */
  lemma {:induction false} Settled(m: Mem, lim: nat, c: Ctx, t: Tree, h: nat)
    requires lim >= 2 && Held(m, lim, c, t) && BalCtx(c, h, lim)
    requires Bal(t, h, lim, if c.Top? then RootMin(t) else lim / 2)
    ensures ProperCtx(c) && Held(m, lim, Top, Plug(c, t))
    ensures Items(Plug(c, t)) == Before(c) + Items(t) + After(c)
    ensures Bal(Plug(c, t), h + Depth(c), lim, RootMin(Plug(c, t))) && (t.Inner? ==> Plug(c, t).Inner?)
  {
    hide Held, Bal;
    if t.Inner? {
      PlugInner(c, t);
    }
    BalCtxProper(c, h, lim);
    HeldPlug(m, lim, c, t);
    PlugItems(c, t);
    PlugBal(c, t, h, lim);
  }

  ghost function ParentOf(c: Ctx): Ptr {
    if c.Top? then NULL else c.p
  }

  /** The link fields of the node at the end of a path lead one step up that path. */
  lemma {:induction false} UpLink(m: Mem, lim: nat, c: Ctx, p: Ptr)
    requires Sound(m) && CtxShape(m.node, lim, c, p) && RootPtr(c, p) == m.root && p != NULL
    ensures p in m.link && m.link[p] == if c.Top? then UNLINKED else Link(c.p, |c.ls|)
    ensures c.Hole? ==> c.p in m.node && c.p != NULL
  {
    if c.Hole? {
      var cs := CtxKids(c, p);
      InnerFields(lim, c.ks, cs);
      PadKeeps(cs, lim + 2, NULL, |c.ls|);
      assert m.node[c.p].children[|c.ls|] == cs[|c.ls|] == p;
    }
  }

  lemma {:induction false} PairUp(m: Mem, lim: nat, c: Ctx, tl: Tree, tr: Tree, h: nat)
    requires HeldPair(m, lim, c, tl, tr) && BalCtx(c, h, lim)
    ensures tl.p in m.link && m.link[tl.p].parent == ParentOf(c)
    ensures c.Hole? ==> c.p != NULL
  {
    UpLink(m, lim, c, tl.p);
  }

  lemma HeldInner(m: Mem, lim: nat, c: Ctx, t: Tree, h: nat)
    requires Held(m, lim, c, t) && t.Inner? && BalKids(t, h, lim)
    ensures t.p in m.node && m.node[t.p] == InnerNode(lim, t.ks, Roots(t.kids)) && m.node[t.p].n == |t.ks|
    ensures |Roots(t.kids)| == |t.kids| == |t.ks| + 1
  {
  }

  lemma HeldNode(m: Mem, lim: nat, c: Ctx, t: Tree, h: nat)
    requires Held(m, lim, c, t) && Bal(t, h, lim, 0)
    ensures t.p in m.node && m.node[t.p].leaf == t.Leaf? && m.node[t.p].n == |t.ks|
    ensures |m.node[t.p].keys| == lim + 1 && forall i :: 0 <= i < |t.ks| ==> m.node[t.p].keys[i] == t.ks[i]
    ensures t.Leaf? ==>
      h == 0 && |t.vs| == |t.ks| && |m.node[t.p].vals| == lim + 1
        && forall i :: 0 <= i < |t.ks| ==> m.node[t.p].vals[i] == t.vs[i]
    ensures t.Inner? ==> |m.node[t.p].children| == lim + 2 && |t.kids| == |t.ks| + 1
    ensures t.Inner? ==> forall i :: 0 <= i < |t.kids| ==> m.node[t.p].children[i] == t.kids[i].p
  {
  }

  lemma {:induction false} IntoHeld(m: Mem, lim: nat, c: Ctx, t: Tree, i: nat)
    requires Held(m, lim, c, t) && t.Inner? && i < |t.kids|
    ensures Held(m, lim, Into(c, t, i), t.kids[i])
  {
    hide Shape, CtxShape, Linked, Ptrs, PtrsOf;
    IntoShape(m.node, lim, c, t, i);
    IntoPtrs(c, t, i);
  }

  /** All that inserting into the leaf relies on. */
  lemma {:induction false} LeafReady(m: Mem, lim: nat, c: Ctx, t: Tree)
    requires Held(m, lim, c, t) && t.Leaf? && Bal(t, 0, lim, 0) && ProperCtx(c)
    requires Sorted(Whole(c, t)) && ValidKeys(Whole(c, t))
    ensures t.p in m.node && m.node[t.p] == LeafNode(lim, t.ks, t.vs) && |t.vs| == |t.ks| <= lim
    ensures INVALID_KEY !in t.ks && Sorted(Items(t))
  {
    hide Linked, CtxShape, LeafNode;
    SortedParts(Before(c), Items(t), After(c));
    EntriesAt(t.ks, t.vs);
    forall i | 0 <= i < |t.ks| ensures t.ks[i] < INVALID_KEY {
      assert Entries(t.ks, t.vs)[i] in Whole(c, t);
    }
  }

  lemma HeldRoot(m: Mem, lim: nat, t: Tree)
    requires Held(m, lim, Top, t)
    ensures t.p == m.root
  {
  }

  // ---------------------------------------------------------------- separators above a hole

  /** What hangs to the two sides of the hole is read the same when another node is written. */
  lemma {:induction false} SidesFrame(node: Nodes, lim: nat, c: Ctx, q: Ptr, nd: Node, rest: multiset<Ptr>)
    requires c.Hole? && Shapes(node, lim, c.ls) && Shapes(node, lim, c.rs) && q in node
    requires q !in multiset{c.p} + PtrsOf(c.ls) + PtrsOf(c.rs) + rest
    ensures Shapes(node[q := nd], lim, c.ls) && Shapes(node[q := nd], lim, c.rs)
  {
    hide PtrsOf, Shapes;
    FrameOne(node, q, nd, PtrsOf(c.ls));
    FrameOne(node, q, nd, PtrsOf(c.rs));
    ShapesFrame(node, node[q := nd], lim, c.ls);
    ShapesFrame(node, node[q := nd], lim, c.rs);
  }

  lemma {:induction false} SetSepShape(node: Nodes, lim: nat, c: Ctx, hole: Ptr, key: Key, rest: multiset<Ptr>)
    requires CtxShape(node, lim, c, hole) && CtxPtrs(c) + rest == multiset(node.Keys)
    ensures var o := SepOwner(c);
            if o.Top? then SetSep(c, key) == c
            else o.p in node && o.p !in rest && |o.ks| <= |node[o.p].keys| && (0 < |o.ls| <= |o.ks| ==>
              CtxShape(node[o.p := node[o.p].(keys := node[o.p].keys[|o.ls| - 1 := key])], lim, SetSep(c, key), hole))
    decreases c
  {
    hide PtrsOf, Shapes, InnerNode;
    if c.Hole? {
      var rest' := multiset{c.p} + PtrsOf(c.ls) + PtrsOf(c.rs) + rest;
      if c.ls == [] {
        assert CtxPtrs(c.up) + rest' == multiset(node.Keys);
        SetSepShape(node, lim, c.up, c.p, key, rest');
        var o := SepOwner(c.up);
        if o.Hole? && 0 < |o.ls| <= |o.ks| {
          SidesFrame(node, lim, c, o.p, node[o.p].(keys := node[o.p].keys[|o.ls| - 1 := key]), rest);
        }
      } else {
        SetSepHere(node, lim, c, hole, key, rest);
      }
    }
  }

  lemma {:induction false} SetSepHere(node: Nodes, lim: nat, c: Ctx, hole: Ptr, key: Key, rest: multiset<Ptr>)
    requires c.Hole? && c.ls != [] && CtxShape(node, lim, c, hole) && CtxPtrs(c) + rest == multiset(node.Keys)
    ensures c.p in node && c.p !in rest && |c.ks| <= |node[c.p].keys|
    ensures 0 < |c.ls| <= |c.ks| ==>
              CtxShape(node[c.p := node[c.p].(keys := node[c.p].keys[|c.ls| - 1 := key])], lim, SetSep(c, key), hole)
  {
    hide PtrsOf, Shape;
    Once(node.Keys, c.p, PtrsOf(c.ls), PtrsOf(c.rs), CtxPtrs(c.up), rest, multiset{}, c.p);
    if |c.ls| <= |c.ks| {
      var i := |c.ls| - 1;
      var nd := node[c.p].(keys := node[c.p].keys[i := key]);
      PadUpdate(c.ks, lim + 1, INVALID_KEY, i, key);
      assert nd == InnerNode(lim, c.ks[i := key], CtxKids(c, hole));
      FrameOne(node, c.p, nd, PtrsOf(c.ls));
      FrameOne(node, c.p, nd, PtrsOf(c.rs));
      FrameOne(node, c.p, nd, CtxPtrs(c.up));
      ShapesFrame(node, node[c.p := nd], lim, c.ls);
      ShapesFrame(node, node[c.p := nd], lim, c.rs);
      CtxFrame(node, node[c.p := nd], lim, c.up, c.p);
    }
  }

  lemma {:induction false} SetSepPtrs(c: Ctx, key: Key, hole: Ptr)
    ensures CtxPtrs(SetSep(c, key)) == CtxPtrs(c) && RootPtr(SetSep(c, key), hole) == RootPtr(c, hole)
    decreases c
  {
    if c.Hole? && c.ls == [] {
      SetSepPtrs(c.up, key, c.p);
    }
  }

  lemma PathUp(m: Mem, lim: nat, c: Ctx, hole: Ptr)
    requires Sound(m) && CtxShape(m.node, lim, c, hole)
    ensures c.Hole? ==> c.p in m.node && c.p in m.link && c.p != NULL
  {
  }

  lemma Split3(s: set<Ptr>, a: multiset<Ptr>, p: Ptr, b: multiset<Ptr>)
    requires a + multiset{p} + b == multiset(s)
    ensures p !in a && p !in b && p in s && forall x :: x in a ==> x !in b
  {
    assert multiset{p} + a + b + multiset{} + multiset{} + multiset{} == multiset(s);
    Once(s, p, a, b, multiset{}, multiset{}, multiset{}, p);
    forall x | x in a ensures x !in b {
      Once(s, p, a, b, multiset{}, multiset{}, multiset{}, x);
    }
  }

  lemma HeldLeaf(m: Mem, lim: nat, c: Ctx, t: Tree)
    requires Held(m, lim, c, t) && t.Leaf?
    ensures t.p in m.node && t.p != NULL && m.node[t.p] == LeafNode(lim, t.ks, t.vs)
    ensures Sound(m) && CtxShape(m.node, lim, c, t.p) && RootPtr(c, t.p) == m.root
    ensures CtxPtrs(c) + Ptrs(t) == multiset(m.node.Keys)
  {
  }

  lemma LeafFirst(lim: nat, ks: seq<Key>, vs: seq<Val>)
    ensures |LeafNode(lim, ks, vs).keys| > 0 && LeafNode(lim, ks, vs).keys[0] == FirstKey(ks)
  {
  }

  /** A separator replaced above the hole: the rest of the memory is as before. */
  lemma {:induction false} SetSepHeld(m: Mem, m': Mem, lim: nat, c: Ctx, t: Tree, key: Key)
    requires Held(m, lim, c, t) && Sound(m') && m'.root == m.root && m'.node.Keys == m.node.Keys
    requires CtxShape(m'.node, lim, SetSep(c, key), t.p) && SameOn(m.node, m'.node, Ptrs(t))
    ensures Held(m', lim, SetSep(c, key), t)
  {
    hide Linked, CtxShape, Ptrs, Shape;
    ShapeFrame(m.node, m'.node, lim, t);
    SetSepPtrs(c, key, t.p);
  }

  lemma SetSepTop(m: Mem, lim: nat, c: Ctx, p: Ptr, key: Key)
    requires Sound(m) && CtxShape(m.node, lim, c, p) && p in m.link && RootPtr(c, p) == m.root && p != NULL
    requires m.link[p].parent == NULL
    ensures SetSep(c, key) == c
  {
    UpLink(m, lim, c, p);
  }

  // ---------------------------------------------------------------- sibling pairs in memory

  lemma {:induction false} OutHeld(m: Mem, lim: nat, c: Ctx, t: Tree)
    requires Held(m, lim, c, t) && c.Hole?
    ensures Held(m, lim, c.up, Inner(c.p, c.ks, c.ls + [t] + c.rs))
  {
    hide Linked, PtrsOf, InnerNode;
    var kids := c.ls + [t] + c.rs;
    PtrsAround(c.ls, t, c.rs);
    assert Roots(kids) == Roots(c.ls) + [t.p] + Roots(c.rs);
    ShapesAround(m.node, lim, c.ls, t, c.rs);
    assert Ptrs(Inner(c.p, c.ks, kids)) == multiset{c.p} + PtrsOf(kids);
  }

  lemma ShapesAround(node: Nodes, lim: nat, ls: seq<Tree>, t: Tree, rs: seq<Tree>)
    requires Shapes(node, lim, ls) && Shape(node, lim, t) && Shapes(node, lim, rs)
    ensures Shapes(node, lim, ls + [t] + rs)
  {
    hide Shape;
  }

  lemma {:induction false} PairViews(m: Mem, lim: nat, c1: Ctx, a: Tree, k: Key, b: Tree)
    requires c1.Hole? && |c1.ls| <= |c1.ks|
    ensures Held(m, lim, CtxA(c1, k, b), a) <==> Held(m, lim, c1.up, ForkedTree(c1, a, k, b))
    ensures Held(m, lim, CtxB(c1, a, k), b) <==> Held(m, lim, c1.up, ForkedTree(c1, a, k, b))
  {
    hide Held;
    var t := ForkedTree(c1, a, k, b);
    ForkViews(c1, a, k, b);
    if Held(m, lim, c1.up, t) {
      IntoHeld(m, lim, c1.up, t, |c1.ls|);
      IntoHeld(m, lim, c1.up, t, |c1.ls| + 1);
    }
    if Held(m, lim, CtxA(c1, k, b), a) {
      OutHeld(m, lim, CtxA(c1, k, b), a);
    }
    if Held(m, lim, CtxB(c1, a, k), b) {
      OutHeld(m, lim, CtxB(c1, a, k), b);
    }
  }

  /** As `Held`, with the nodes in `rest` detached from the tree. */
  ghost predicate HeldWith(m: Mem, lim: nat, c: Ctx, t: Tree, rest: multiset<Ptr>) {
    && Sound(m)
    && CtxShape(m.node, lim, c, t.p) && Shape(m.node, lim, t)
    && CtxPtrs(c) + Ptrs(t) + rest == multiset(m.node.Keys)
    && RootPtr(c, t.p) == m.root
  }

  /** Taking the separator and the right one of a pair out of the node above. */
  lemma {:induction false} UnforkHeld(m: Mem, m': Mem, lim: nat, c1: Ctx, a: Tree, k: Key, b: Tree)
    requires c1.Hole? && |c1.ls| <= |c1.ks| && Held(m, lim, c1.up, ForkedTree(c1, a, k, b))
    requires Sound(m') && m'.root == m.root
    requires m'.node == m.node[c1.p := InnerNode(lim, c1.ks, CtxKids(c1, a.p))]
    ensures HeldWith(m', lim, c1, a, Ptrs(b)) && Shape(m'.node, lim, b)
  {
    hide Linked, InnerNode, Sound, PtrsOf, Ptrs, CtxPtrs, Roots;
    var nd := InnerNode(lim, c1.ks, CtxKids(c1, a.p));
    UnforkPtrs(c1, a, k, b);
    assert m'.node.Keys == m.node.Keys;
    ForkedShapes(m.node, lim, c1, a, b);
    UnforkFrame(m.node, lim, c1, a, b, nd);
  }

  lemma {:induction false} UnforkPtrs(c1: Ctx, a: Tree, k: Key, b: Tree)
    requires c1.Hole? && |c1.ls| <= |c1.ks|
    ensures CtxPtrs(c1.up) + Ptrs(ForkedTree(c1, a, k, b)) == CtxPtrs(c1) + Ptrs(a) + Ptrs(b)
  {
    ForkedPtrs(c1, a, b);
    assert Ptrs(ForkedTree(c1, a, k, b)) == multiset{c1.p} + PtrsOf(c1.ls + [a, b] + c1.rs);
    Shuffle(CtxPtrs(c1.up), multiset{c1.p}, PtrsOf(c1.ls), Ptrs(a), Ptrs(b), PtrsOf(c1.rs));
  }

  lemma Shuffle(u: multiset<Ptr>, p: multiset<Ptr>, l: multiset<Ptr>, a: multiset<Ptr>, b: multiset<Ptr>,
                r: multiset<Ptr>)
    ensures u + (p + (l + a + b + r)) == p + l + r + u + a + b
  {
  }

  lemma ForkedShapes(node: Nodes, lim: nat, c1: Ctx, a: Tree, b: Tree)
    requires c1.Hole? && Shapes(node, lim, c1.ls + [a, b] + c1.rs)
    ensures Shapes(node, lim, c1.ls) && Shape(node, lim, a) && Shape(node, lim, b) && Shapes(node, lim, c1.rs)
  {
    hide Shape;
    var kids := c1.ls + [a, b] + c1.rs;
    assert a == kids[|c1.ls|] && b == kids[|c1.ls| + 1];
    assert forall i :: 0 <= i < |c1.ls| ==> c1.ls[i] == kids[i];
    assert forall i :: 0 <= i < |c1.rs| ==> c1.rs[i] == kids[|c1.ls| + 2 + i];
  }

  lemma {:induction false} UnforkFrame(node: Nodes, lim: nat, c1: Ctx, a: Tree, b: Tree, nd: Node)
    requires c1.Hole? && CtxPtrs(c1) + Ptrs(a) + Ptrs(b) == multiset(node.Keys)
    requires CtxShape(node, lim, c1.up, c1.p) && Shapes(node, lim, c1.ls) && Shapes(node, lim, c1.rs)
    requires Shape(node, lim, a) && Shape(node, lim, b) && nd == InnerNode(lim, c1.ks, CtxKids(c1, a.p))
    ensures CtxShape(node[c1.p := nd], lim, c1, a.p) && Shape(node[c1.p := nd], lim, a)
      && Shape(node[c1.p := nd], lim, b)
  {
    hide PtrsOf, Ptrs, Shape, InnerNode;
    var node' := node[c1.p := nd];
    Once(node.Keys, c1.p, PtrsOf(c1.ls), PtrsOf(c1.rs), CtxPtrs(c1.up), Ptrs(a), Ptrs(b), c1.p);
    FrameOne(node, c1.p, nd, PtrsOf(c1.ls));
    FrameOne(node, c1.p, nd, PtrsOf(c1.rs));
    FrameOne(node, c1.p, nd, CtxPtrs(c1.up));
    FrameOne(node, c1.p, nd, Ptrs(a));
    FrameOne(node, c1.p, nd, Ptrs(b));
    ShapesFrame(node, node', lim, c1.ls);
    ShapesFrame(node, node', lim, c1.rs);
    CtxFrame(node, node', lim, c1.up, c1.p);
    ShapeFrame(node, node', lim, a);
    ShapeFrame(node, node', lim, b);
  }

  /** Freeing a detached node that no child slot names. */
  lemma {:induction false} FreeHeld(m: Mem, lim: nat, c: Ctx, t: Tree, q: Ptr)
    requires HeldWith(m, lim, c, t, multiset{q}) && q in m.link && !Attached(m.node, m.link, q)
    ensures Held(Mem(m.node - {q}, m.link - {q}, m.root), lim, c, t)
  {
    hide Ptrs, CtxPtrs, Shape, CtxShape;
    var node' := m.node - {q};
    assert multiset{q} + CtxPtrs(c) + Ptrs(t) + multiset{} + multiset{} + multiset{} == multiset(m.node.Keys);
    Once(m.node.Keys, q, CtxPtrs(c), Ptrs(t), multiset{}, multiset{}, multiset{}, q);
    RootInside(c, t);
    assert m.root != q;
    assert SameOn(m.node, node', CtxPtrs(c)) && SameOn(m.node, node', Ptrs(t));
    CtxFrame(m.node, node', lim, c, t.p);
    ShapeFrame(m.node, node', lim, t);
    assert node'.Keys == m.node.Keys - {q};
    forall x ensures (CtxPtrs(c) + Ptrs(t))[x] == multiset(node'.Keys)[x] {
      Once(m.node.Keys, q, CtxPtrs(c), Ptrs(t), multiset{}, multiset{}, multiset{}, x);
    }
    assert Linked(node', m.link - {q}) by {
      forall p, i | p in node' && 0 <= i < |node'[p].children| && node'[p].children[i] != NULL
        ensures node'[p].children[i] in m.link - {q} && (m.link - {q})[node'[p].children[i]] == Link(p, i)
      {
        assert m.node[p].children[i] in m.link;
      }
    }
  }

  lemma {:induction false} RootInside(c: Ctx, t: Tree)
    ensures RootPtr(c, t.p) in CtxPtrs(c) || RootPtr(c, t.p) in Ptrs(t)
  {
    if c.Hole? {
      RootOnPath(c, t.p);
    } else {
      RootCounted(t);
    }
  }

  lemma HeldSize(m: Mem, lim: nat, c: Ctx, t: Tree)
    requires Held(m, lim, c, t)
    ensures t.p in m.node && m.node[t.p].n == |t.ks| && m.node[t.p].leaf == t.Leaf?
  {
  }

  lemma LeafPtrs(t: Tree, c: Ctx)
    requires t.Leaf?
    ensures Ptrs(t) == multiset{t.p} && CtxPtrs(c) + multiset{t.p} + multiset{} == CtxPtrs(c) + Ptrs(t)
  {
  }

  lemma {:induction false} AppendedHeld(m: Mem, m': Mem, lim: nat, c: Ctx, t: Tree, t': Tree, key: Key)
    requires Held(m, lim, c, t) && t.Leaf? && t'.Leaf? && t'.p == t.p
    requires Sound(m') && m'.root == m.root && m'.node.Keys == m.node.Keys
      && m'.node[t.p] == LeafNode(lim, t'.ks, t'.vs)
    requires CtxShape(m'.node, lim, if t.ks == [] then SetSep(c, key) else c, t.p)
    ensures Held(m', lim, if t.ks == [] then SetSep(c, key) else c, t')
  {
    hide Linked, CtxShape, LeafNode;
    SetSepPtrs(c, key, t.p);
  }

  lemma {:induction false} KidRootsApart(a: seq<Tree>, b: seq<Tree>, s: set<Ptr>, rest: multiset<Ptr>)
    requires PtrsOf(a) + PtrsOf(b) + rest == multiset(s) && NULL !in s
    ensures NULL !in Roots(a) && NULL !in Roots(b)
    ensures forall x :: x in Roots(a) ==> x !in Roots(b) && x !in rest && x in s
    ensures forall x :: x in Roots(b) ==> x !in rest && x in s
  {
    assert PtrsOf(a) + (PtrsOf(b) + rest) == multiset(s) && PtrsOf(b) + (PtrsOf(a) + rest) == multiset(s);
    KidRoots(a, s, PtrsOf(b) + rest);
    KidRoots(b, s, PtrsOf(a) + rest);
    forall x | x in Roots(b) ensures x in PtrsOf(b) {
      var j :| 0 <= j < |b| && b[j].p == x;
      RootIn(b, j);
    }
  }

  /** All that rotating through the node above relies on. */
  lemma {:induction false} InnerPair(m: Mem, lim: nat, c1: Ctx, a: Tree, k: Key, b: Tree)
    requires c1.Hole? && |c1.ls| <= |c1.ks| && Held(m, lim, c1.up, ForkedTree(c1, a, k, b)) && a.Inner? && b.Inner?
    requires |a.kids| <= lim + 2 && |b.kids| <= lim + 2
    ensures c1.p in m.node && m.node[c1.p] == InnerNode(lim, InsertAt(c1.ks, |c1.ls|, k), Roots(c1.ls + [a, b] + c1.rs))
    ensures a.p in m.node && m.node[a.p] == InnerNode(lim, a.ks, Roots(a.kids))
      && LinkedKids(m.link, a.p, Roots(a.kids))
    ensures b.p in m.node && m.node[b.p] == InnerNode(lim, b.ks, Roots(b.kids))
      && LinkedKids(m.link, b.p, Roots(b.kids))
    ensures a.p != b.p && a.p != c1.p && b.p != c1.p && Linked(m.node, m.link)
    ensures NULL !in Roots(a.kids) && NULL !in Roots(b.kids) && forall x :: x in Roots(a.kids) ==> x !in Roots(b.kids)
    ensures forall x :: x in Roots(a.kids) || x in Roots(b.kids) ==> x != m.root
    ensures |Roots(a.kids)| == |a.kids| && |Roots(b.kids)| == |b.kids| && Sound(m)
  {
    hide InnerNode, Linked, PtrsOf, LinkedKids;
    var s := m.node.Keys;
    ForkedShapes(m.node, lim, c1, a, b);
    UnforkPtrs(c1, a, k, b);
    var rest := CtxPtrs(c1) + multiset{a.p} + multiset{b.p};
    assert PtrsOf(a.kids) + PtrsOf(b.kids) + rest == multiset(s);
    KidRootsApart(a.kids, b.kids, s, rest);
    assert multiset{a.p} + multiset{b.p} + CtxPtrs(c1) + PtrsOf(a.kids) + PtrsOf(b.kids) + multiset{} == multiset(s);
    Once(s, a.p, multiset{b.p}, CtxPtrs(c1), PtrsOf(a.kids), PtrsOf(b.kids), multiset{}, a.p);
    Once(s, a.p, multiset{b.p}, CtxPtrs(c1), PtrsOf(a.kids), PtrsOf(b.kids), multiset{}, b.p);
    assert c1.p in CtxPtrs(c1);
    RootOnPath(c1, a.p);
    KidsLinked(m, lim, a.p, a.ks, Roots(a.kids));
    KidsLinked(m, lim, b.p, b.ks, Roots(b.kids));
  }

  lemma {:induction false} RotateRoots(a: Tree, b: Tree, n: nat)
    requires a.Inner? && b.Inner? && n + 1 == |a.kids|
    ensures Roots(a.kids[..n]) == Roots(a.kids)[..n]
      && Roots([a.kids[n]] + b.kids) == [Roots(a.kids)[n]] + Roots(b.kids)
    ensures a.kids[..n] + ([a.kids[n]] + b.kids) == a.kids + b.kids
  {
  }

  lemma {:induction false} RotateRootsBack(a: Tree, b: Tree)
    requires a.Inner? && b.Inner? && b.kids != []
    ensures Roots(a.kids + [b.kids[0]]) == Roots(a.kids) + [Roots(b.kids)[0]]
      && Roots(b.kids[1..]) == Roots(b.kids)[1..]
    ensures (a.kids + [b.kids[0]]) + b.kids[1..] == a.kids + b.kids
  {
  }

  /** Two neighbours redistribute their kids, and the separator between them changes. */
  lemma {:induction false} PairRewrite(m: Mem, m': Mem, lim: nat, c1: Ctx, a: Tree, k: Key, b: Tree, a': Tree, k': Key,
                                       b': Tree)
    requires c1.Hole? && |c1.ls| <= |c1.ks| && Held(m, lim, c1.up, ForkedTree(c1, a, k, b))
    requires a.Inner? && b.Inner? && a'.Inner? && b'.Inner? && a'.p == a.p && b'.p == b.p
      && a'.kids + b'.kids == a.kids + b.kids
    requires Sound(m') && m'.root == m.root && m'.node.Keys == m.node.Keys
    requires a.p in m'.node && m'.node[a.p] == InnerNode(lim, a'.ks, Roots(a'.kids))
    requires b.p in m'.node && m'.node[b.p] == InnerNode(lim, b'.ks, Roots(b'.kids))
    requires c1.p in m'.node
      && m'.node[c1.p] == InnerNode(lim, InsertAt(c1.ks, |c1.ls|, k'), Roots(c1.ls + [a, b] + c1.rs))
    requires forall x :: x in m.node && x != a.p && x != b.p && x != c1.p ==> m'.node[x] == m.node[x]
    ensures Held(m', lim, c1.up, ForkedTree(c1, a', k', b'))
  {
    hide InnerNode, Linked, PtrsOf, Sound;
    var s := m.node.Keys;
    ForkedShapes(m.node, lim, c1, a, b);
    UnforkPtrs(c1, a, k, b);
    PtrsAppend(a.kids, b.kids);
    PtrsAppend(a'.kids, b'.kids);
    UnforkPtrs(c1, a', k', b');
    Rearranged(a.p, b.p, PtrsOf(a.kids), PtrsOf(b.kids), PtrsOf(a'.kids), PtrsOf(b'.kids), CtxPtrs(c1));
    assert CtxPtrs(c1.up) + Ptrs(ForkedTree(c1, a', k', b')) == multiset(s);
    RewriteFrame(m.node, m'.node, lim, c1, a, b, a', b');
    assert Roots(c1.ls + [a', b'] + c1.rs) == Roots(c1.ls + [a, b] + c1.rs);
    ForkedShapesUp(m'.node, lim, c1, a', b');
  }

  /** Rotating a child through the node above only touches the three nodes and the links of
      the children of the pair. */
  lemma {:induction false} PairRotated(m: Mem, m': Mem, lim: nat, c1: Ctx, a: Tree, k: Key, b: Tree, a': Tree, k': Key,
                                       b': Tree)
    requires c1.Hole? && |c1.ls| <= |c1.ks| && Held(m, lim, c1.up, ForkedTree(c1, a, k, b))
    requires a.Inner? && b.Inner? && a'.Inner? && b'.Inner? && a'.p == a.p && b'.p == b.p
      && a'.kids + b'.kids == a.kids + b.kids && |a.kids| <= lim + 2 && |b.kids| <= lim + 2
    requires a.p in m.node && b.p in m.node && c1.p in m.node && a.p != b.p && a.p != c1.p && b.p != c1.p
    requires m'.root == m.root && m'.link.Keys == m.link.Keys && Linked(m'.node, m'.link)
      && m'.node.Keys == m.node.Keys
    requires m'.node[a.p] == InnerNode(lim, a'.ks, Roots(a'.kids))
      && m'.node[b.p] == InnerNode(lim, b'.ks, Roots(b'.kids))
      && m'.node[c1.p] == InnerNode(lim, InsertAt(c1.ks, |c1.ls|, k'), Roots(c1.ls + [a, b] + c1.rs))
    requires forall x :: x in m.node && x != a.p && x != b.p && x != c1.p ==> m'.node[x] == m.node[x]
    requires forall x :: x in m.link && x !in Roots(a.kids) && x !in Roots(b.kids) ==> m'.link[x] == m.link[x]
    ensures Held(m', lim, c1.up, ForkedTree(c1, a', k', b'))
  {
    hide Held, InsertAt, InnerNode, Linked, Roots, LinkedKids, ForkedTree;
    InnerPair(m, lim, c1, a, k, b);
    StillSound(m, m');
    hide Sound;
    PairRewrite(m, m', lim, c1, a, k, b, a', k', b');
  }

  lemma Rearranged(p: Ptr, q: Ptr, a: multiset<Ptr>, b: multiset<Ptr>, a': multiset<Ptr>, b': multiset<Ptr>,
                   c: multiset<Ptr>)
    requires a + b == a' + b'
    ensures c + (multiset{p} + a) + (multiset{q} + b) == c + (multiset{p} + a') + (multiset{q} + b')
  {
    assert c + (multiset{p} + a) + (multiset{q} + b) == c + multiset{p} + multiset{q} + (a + b);
    assert c + (multiset{p} + a') + (multiset{q} + b') == c + multiset{p} + multiset{q} + (a' + b');
  }

  lemma ForkedShapesUp(node: Nodes, lim: nat, c1: Ctx, a: Tree, b: Tree)
    requires c1.Hole? && Shapes(node, lim, c1.ls) && Shape(node, lim, a) && Shape(node, lim, b)
      && Shapes(node, lim, c1.rs)
    ensures Shapes(node, lim, c1.ls + [a, b] + c1.rs)
  {
    hide Shape;
  }

  lemma {:induction false} RewriteFrame(node: Nodes, node': Nodes, lim: nat, c1: Ctx, a: Tree, b: Tree, a': Tree,
                                        b': Tree)
    requires c1.Hole? && CtxPtrs(c1) + Ptrs(a) + Ptrs(b) == multiset(node.Keys) && node'.Keys == node.Keys
    requires a.Inner? && b.Inner? && a'.Inner? && b'.Inner? && a'.p == a.p && b'.p == b.p
      && a'.kids + b'.kids == a.kids + b.kids
    requires Shapes(node, lim, c1.ls) && Shapes(node, lim, c1.rs) && CtxShape(node, lim, c1.up, c1.p)
    requires Shapes(node, lim, a.kids) && Shapes(node, lim, b.kids)
    requires a.p in node' && node'[a.p] == InnerNode(lim, a'.ks, Roots(a'.kids))
    requires b.p in node' && node'[b.p] == InnerNode(lim, b'.ks, Roots(b'.kids))
    requires forall x :: x in node && x != a.p && x != b.p && x != c1.p ==> node'[x] == node[x]
    ensures Shapes(node', lim, c1.ls) && Shapes(node', lim, c1.rs) && CtxShape(node', lim, c1.up, c1.p)
    ensures Shape(node', lim, a') && Shape(node', lim, b')
  {
    hide InnerNode, PtrsOf;
    var s := node.Keys;
    var ps := PtrsOf(c1.ls) + PtrsOf(c1.rs) + CtxPtrs(c1.up) + PtrsOf(a.kids) + PtrsOf(b.kids);
    assert ps + multiset{a.p} + multiset{b.p} + multiset{c1.p} == multiset(s);
    assert SameOn(node, node', ps) by {
      Thrice(s, ps, a.p, b.p, c1.p);
    }
    ShapesFrame(node, node', lim, c1.ls);
    ShapesFrame(node, node', lim, c1.rs);
    CtxFrame(node, node', lim, c1.up, c1.p);
    ShapesFrame(node, node', lim, a.kids);
    ShapesFrame(node, node', lim, b.kids);
    ShapesAppend(node', lim, a.kids, b.kids);
    ShapesSlice(node', lim, a.kids + b.kids, |a'.kids|);
    assert (a.kids + b.kids)[..|a'.kids|] == a'.kids && (a.kids + b.kids)[|a'.kids|..] == b'.kids;
  }

  lemma Thrice(s: set<Ptr>, ps: multiset<Ptr>, p: Ptr, q: Ptr, r: Ptr)
    requires ps + multiset{p} + multiset{q} + multiset{r} == multiset(s)
    ensures p !in ps && q !in ps && r !in ps && p != q && q != r && p != r
  {
    var e := multiset{};
    assert multiset{p} + ps + multiset{q} + multiset{r} + e + e == multiset(s);
    Once(s, p, ps, multiset{q}, multiset{r}, e, e, p);
    Once(s, p, ps, multiset{q}, multiset{r}, e, e, q);
    Once(s, p, ps, multiset{q}, multiset{r}, e, e, r);
  }

  lemma ShapesAppend(node: Nodes, lim: nat, a: seq<Tree>, b: seq<Tree>)
    requires Shapes(node, lim, a) && Shapes(node, lim, b)
    ensures Shapes(node, lim, a + b)
  {
    hide Shape;
  }

  /** All that taking a pair apart relies on. */
  lemma {:induction false} ForkNode(m: Mem, lim: nat, c1: Ctx, a: Tree, k: Key, b: Tree)
    requires c1.Hole? && ProperCtx(c1) && |c1.ks| < lim && Held(m, lim, c1.up, ForkedTree(c1, a, k, b))
    ensures var i, ks, cs := |c1.ls|, InsertAt(c1.ks, |c1.ls|, k), Roots(c1.ls + [a, b] + c1.rs);
      && Sound(m) && Linked(m.node, m.link)
      && |cs| == |ks| + 1 <= lim + 1 && c1.p in m.node && m.node[c1.p] == InnerNode(lim, ks, cs) && i < |ks|
      && LinkedKids(m.link, c1.p, cs) && m.root !in cs
      && a.p in m.link && m.link[a.p] == Link(c1.p, i) && ks[i] == k && cs[i + 1] == b.p
      && RemoveAt(ks, i) == c1.ks && RemoveAt(cs, i + 1) == CtxKids(c1, a.p)
  {
    hide InnerNode, Linked, PtrsOf, Shape, LinkedKids;
    var i, ks, kids := |c1.ls|, InsertAt(c1.ks, |c1.ls|, k), c1.ls + [a, b] + c1.rs;
    var cs := Roots(kids);
    var t := ForkedTree(c1, a, k, b);
    assert Ptrs(t) == multiset{c1.p} + PtrsOf(kids);
    assert PtrsOf(kids) + (CtxPtrs(c1.up) + multiset{c1.p}) == multiset(m.node.Keys);
    KidRoots(kids, m.node.Keys, CtxPtrs(c1.up) + multiset{c1.p});
    assert m.node[c1.p] == InnerNode(lim, ks, cs) by {
      ForkInner(m.node, lim, t);
    }
    KidsLinked(m, lim, c1.p, ks, cs);
    assert cs[i] == kids[i].p == a.p && cs[i + 1] == kids[i + 1].p == b.p;
    assert RemoveAt(ks, i) == c1.ks;
    assert RemoveAt(cs, i + 1) == CtxKids(c1, a.p);
    KidsParent(m.link, c1.p, cs);
    assert m.link[cs[i]] == Link(c1.p, i) by {
      KidLink(m.link, c1.p, cs, i);
    }
  }

  lemma ForkInner(node: Nodes, lim: nat, t: Tree)
    requires Shape(node, lim, t) && t.Inner?
    ensures t.p in node && node[t.p] == InnerNode(lim, t.ks, Roots(t.kids))
  {
  }

  lemma KidLink(link: Links, p: Ptr, cs: seq<Ptr>, i: nat)
    requires LinkedKids(link, p, cs) && i < |cs|
    ensures cs[i] in link && link[cs[i]] == Link(p, i)
  {
  }

  lemma LeafBody(node: Nodes, lim: nat, t: Tree)
    requires Shape(node, lim, t) && t.Leaf? && |t.ks| == |t.vs| <= lim
    ensures t.p in node && node[t.p].n == |t.ks| && |node[t.p].keys| == |node[t.p].vals| == lim + 1
    ensures forall i :: 0 <= i < |t.ks| ==> node[t.p].keys[i] == t.ks[i] && node[t.p].vals[i] == t.vs[i]
    ensures Ptrs(t) == multiset{t.p}
  {
  }

  lemma LeafWith(m: Mem, lim: nat, c: Ctx, t: Tree, rest: multiset<Ptr>)
    requires HeldWith(m, lim, c, t, rest) && t.Leaf?
    ensures t.p in m.node && m.node[t.p] == LeafNode(lim, t.ks, t.vs)
    ensures Sound(m) && CtxShape(m.node, lim, c, t.p) && RootPtr(c, t.p) == m.root
    ensures CtxPtrs(c) + multiset{t.p} + rest == multiset(m.node.Keys)
  {
    hide LeafNode, CtxShape, Linked;
  }

  lemma {:induction false} AppendedWith(m: Mem, m': Mem, lim: nat, c: Ctx, t: Tree, t': Tree, key: Key,
                                        rest: multiset<Ptr>)
    requires HeldWith(m, lim, c, t, rest) && t.Leaf? && t'.Leaf? && t'.p == t.p
    requires Sound(m') && m'.root == m.root && m'.node.Keys == m.node.Keys
      && m'.node[t.p] == LeafNode(lim, t'.ks, t'.vs)
    requires CtxShape(m'.node, lim, if t.ks == [] then SetSep(c, key) else c, t.p)
    ensures HeldWith(m', lim, if t.ks == [] then SetSep(c, key) else c, t', rest)
  {
    hide Linked, CtxShape, LeafNode;
    SetSepPtrs(c, key, t.p);
  }

  /** A detached node is in no child slot of the node its link fields still name. */
  lemma {:induction false} DetachedFree(m: Mem, lim: nat, c: Ctx, t: Tree, q: Ptr)
    requires HeldWith(m, lim, c, t, multiset{q}) && c.Hole? && q in m.link && m.link[q].parent == c.p
    ensures !Attached(m.node, m.link, q) && q in m.node
  {
    hide InnerNode, Linked, PtrsOf, Ptrs, Shape;
    CtxKidsDistinct(m.node.Keys, c, t, multiset{q});
    assert q in multiset{q};
    InnerFields(lim, c.ks, CtxKids(c, t.p));
  }

  /** A pair to be merged and the nodes on the path above it are all different. */
  lemma {:induction false} MergeApart(s: set<Ptr>, d: multiset<Ptr>, a: Tree, b: Tree)
    requires d + Ptrs(a) + Ptrs(b) == multiset(s) && a.Inner? && b.Inner?
    ensures a.p in s && b.p in s && a.p != b.p && d[a.p] == d[b.p] == 0 && forall x :: x in d ==> x in s
  {
    hide PtrsOf;
    assert multiset{a.p} + multiset{b.p} + d + PtrsOf(a.kids) + PtrsOf(b.kids) + multiset{} == multiset(s);
    Once(s, a.p, multiset{b.p}, d, PtrsOf(a.kids), PtrsOf(b.kids), multiset{}, a.p);
    Once(s, a.p, multiset{b.p}, d, PtrsOf(a.kids), PtrsOf(b.kids), multiset{}, b.p);
    forall x | x in d ensures x in s {
      Once(s, a.p, multiset{b.p}, d, PtrsOf(a.kids), PtrsOf(b.kids), multiset{}, x);
    }
  }

  /** So are their children. */
  lemma {:induction false} MergeRoots(s: set<Ptr>, d: multiset<Ptr>, a: Tree, b: Tree)
    requires d + Ptrs(a) + Ptrs(b) == multiset(s) && NULL !in s && a.Inner? && b.Inner?
    ensures Distinct(Roots(a.kids) + Roots(b.kids)) && NULL !in Roots(a.kids) && NULL !in Roots(b.kids)
    ensures b.p !in Roots(b.kids) && forall x :: x in Roots(b.kids) ==> x !in d
  {
    hide PtrsOf, Distinct;
    var rest := d + multiset{a.p} + multiset{b.p};
    assert PtrsOf(a.kids) + PtrsOf(b.kids) + rest == multiset(s);
    KidRootsApart(a.kids, b.kids, s, rest);
    PtrsAppend(a.kids, b.kids);
    KidRoots(a.kids + b.kids, s, rest);
    assert Roots(a.kids + b.kids) == Roots(a.kids) + Roots(b.kids);
  }

  /** All that moving the kids of `b` over to `a` relies on. */
  lemma {:induction false} MergeReady(m: Mem, lim: nat, c1: Ctx, a: Tree, b: Tree)
    requires HeldWith(m, lim, c1, a, Ptrs(b)) && Shape(m.node, lim, b) && c1.Hole? && a.Inner? && b.Inner?
    requires |a.kids| <= lim + 2 && |b.kids| <= lim + 2 && b.p in m.link && m.link[b.p].parent == c1.p
    ensures a.p in m.node && m.node[a.p] == InnerNode(lim, a.ks, Roots(a.kids))
      && LinkedKids(m.link, a.p, Roots(a.kids))
    ensures b.p in m.node && m.node[b.p] == InnerNode(lim, b.ks, Roots(b.kids))
      && LinkedKids(m.link, b.p, Roots(b.kids))
    ensures a.p != b.p && Linked(m.node - {b.p}, m.link) && Distinct(Roots(a.kids) + Roots(b.kids))
    ensures NULL !in Roots(b.kids) && b.p !in Roots(b.kids) && m.root !in Roots(b.kids) && m.root != b.p
    ensures !Attached(m.node, m.link, b.p) && c1.p in m.node && c1.p != a.p && c1.p != b.p
  {
    hide InnerNode, PtrsOf, LinkedKids, Ptrs, CtxPtrs, Distinct;
    var s := m.node.Keys;
    MergeApart(s, CtxPtrs(c1), a, b);
    MergeRoots(s, CtxPtrs(c1), a, b);
    RootOnPath(c1, a.p);
    HoleCounted(c1);
    CtxKidsDistinct(s, c1, a, Ptrs(b));
    RootCounted(b);
    KidsLinked(m, lim, a.p, a.ks, Roots(a.kids));
    KidsLinked(m, lim, b.p, b.ks, Roots(b.kids));
    InnerFields(lim, c1.ks, CtxKids(c1, a.p));
  }

  /** The leaf `a` with the first `i` entries of the leaf `b` behind its own. */
  ghost function MergedLeaf(a: Tree, b: Tree, i: nat): Tree
    requires a.Leaf? && b.Leaf? && i <= |b.ks| == |b.vs|
  {
    Leaf(a.p, a.ks + b.ks[..i], a.vs + b.vs[..i])
  }

  /** The path to it: the first entry of an empty leaf sets the separator in front. */
  ghost function MergedCtx(c1: Ctx, a: Tree, b: Tree, i: nat): Ctx {
    if i > 0 && a.ks == [] && b.ks != [] then SetSep(c1, b.ks[0]) else c1
  }

  lemma MergedNone(a: Tree, b: Tree)
    requires a.Leaf? && b.Leaf? && |b.ks| == |b.vs|
    ensures MergedLeaf(a, b, 0) == a
  {
  }

  /** While the kids `rb` of the node `q` move elsewhere: the first `i` have moved. */
  ghost predicate MoveInv(m: Mem, link: Links, q: Ptr, rb: seq<Ptr>, i: nat) {
    && link.Keys == m.link.Keys
    && (forall x :: x in link && x !in rb ==> link[x] == m.link[x])
    && (forall j :: i <= j < |rb| ==> rb[j] in link && link[rb[j]] == Link(q, j))
  }

  lemma MoveStart(m: Mem, lim: nat, p: Ptr, q: Ptr, ra: seq<Ptr>, rb: seq<Ptr>)
    requires Distinct(ra + rb) && LinkedKids(m.link, q, rb) && rb != [] && NULL !in rb
    ensures MoveInv(m, m.link, q, rb, 0)
    ensures rb[0] in m.link && rb[0] !in ra && rb[0] != NULL && !Attached(m.node - {q}, m.link, rb[0])
  {
    MoveFresh(ra, rb, 0);
    assert ra + rb[..0] == ra;
  }

  lemma MoveFresh(ra: seq<Ptr>, rb: seq<Ptr>, i: nat)
    requires Distinct(ra + rb) && i < |rb|
    ensures rb[i] !in ra + rb[..i]
  {
    var cs := ra + rb;
    assert cs[|ra| + i] == rb[i];
    forall j | 0 <= j < |ra + rb[..i]| ensures (ra + rb[..i])[j] != rb[i] {
      assert (ra + rb[..i])[j] == cs[j];
    }
  }

  lemma MoveStep(m: Mem, link: Links, link': Links, p: Ptr, q: Ptr, ra: seq<Ptr>, rb: seq<Ptr>, i: nat)
    requires MoveInv(m, link, q, rb, i) && i < |rb| && Distinct(ra + rb)
    requires link' == link[rb[i] := Link(p, |ra| + i)]
    ensures MoveInv(m, link', q, rb, i + 1)
  {
    forall j | i < j < |rb| ensures rb[j] != rb[i] {
      assert (ra + rb)[|ra| + i] == rb[i] && (ra + rb)[|ra| + j] == rb[j];
    }
    assert rb[i] in link;
  }

  lemma MoveNext(m: Mem, node: Nodes, link: Links, q: Ptr, ra: seq<Ptr>, rb: seq<Ptr>, i: nat)
    requires MoveInv(m, link, q, rb, i) && i < |rb| && Distinct(ra + rb) && NULL !in rb && q !in node
    ensures rb[i] in link && rb[i] !in ra + rb[..i] && rb[i] != NULL && !Attached(node, link, rb[i])
  {
    MoveFresh(ra, rb, i);
    assert link[rb[i]] == Link(q, i);
  }

  lemma {:induction false} MergedHeld(m: Mem, lim: nat, c1: Ctx, a: Tree, k: Key, b: Tree, link: Links)
    requires HeldWith(m, lim, c1, a, Ptrs(b)) && Shape(m.node, lim, b) && c1.Hole? && a.Inner? && b.Inner?
    requires |a.kids| <= lim + 2 && |b.kids| <= lim + 2 && b.p in m.link && m.link[b.p].parent == c1.p
    requires MoveInv(m, link, b.p, Roots(b.kids), |b.kids|)
    requires var node' := m.node[a.p := InnerNode(lim, a.ks + [k] + b.ks, Roots(a.kids) + Roots(b.kids))];
             Linked(node' - {b.p}, link)
    ensures var node' := m.node[a.p := InnerNode(lim, a.ks + [k] + b.ks, Roots(a.kids) + Roots(b.kids))];
            && b.p in node'
            && Held(Mem(node' - {b.p}, link - {b.p}, m.root), lim, c1, Inner(a.p, a.ks + [k] + b.ks, a.kids + b.kids))
  {
    hide InnerNode, PtrsOf, LinkedKids, Linked, Attached, Distinct;
    var nd := InnerNode(lim, a.ks + [k] + b.ks, Roots(a.kids) + Roots(b.kids));
    var node' := m.node[a.p := nd] - {b.p};
    var t := Inner(a.p, a.ks + [k] + b.ks, a.kids + b.kids);
    MergeReady(m, lim, c1, a, b);
    MergedFrame(m.node, lim, c1, a, b, nd);
    PtrsAppend(a.kids, b.kids);
    assert Roots(a.kids + b.kids) == Roots(a.kids) + Roots(b.kids);
    MergedSound(m, link, lim, a.p, b.p, c1.p, nd);
    MergedPtrs(m.node.Keys, CtxPtrs(c1), a.p, PtrsOf(a.kids), b.p, PtrsOf(b.kids));
    assert node'.Keys == m.node.Keys - {b.p};
    assert Ptrs(t) == multiset{a.p} + PtrsOf(a.kids + b.kids);
  }

  lemma MergedPtrs(s: set<Ptr>, c: multiset<Ptr>, p: Ptr, a: multiset<Ptr>, q: Ptr, b: multiset<Ptr>)
    requires c + (multiset{p} + a) + (multiset{q} + b) == multiset(s)
    ensures c + (multiset{p} + (a + b)) == multiset(s - {q})
  {
    assert multiset{q} + c + multiset{p} + a + b + multiset{} == multiset(s);
    forall x ensures (c + (multiset{p} + (a + b)))[x] == multiset(s - {q})[x] {
      Once(s, q, c, multiset{p}, a, b, multiset{}, x);
      Once(s, q, c, multiset{p}, a, b, multiset{}, q);
    }
  }

  lemma MergedSound(m: Mem, link: Links, lim: nat, p: Ptr, q: Ptr, u: Ptr, nd: Node)
    requires Sound(m) && q in m.link && !Attached(m.node, m.link, q) && m.link[q].parent == u && u != p && p in m.node
    requires link.Keys == m.link.Keys && link[q] == m.link[q] && link[m.root] == m.link[m.root] && m.root != q
    requires Linked(m.node[p := nd] - {q}, link)
    ensures Sound(Mem(m.node[p := nd] - {q}, link - {q}, m.root))
  {
    var node' := m.node[p := nd] - {q};
    forall x, i | x in node' && 0 <= i < |node'[x].children| && node'[x].children[i] != NULL
      ensures node'[x].children[i] in link - {q} && (link - {q})[node'[x].children[i]] == Link(x, i)
    {
      assert link[node'[x].children[i]] == Link(x, i);
    }
  }

  lemma {:induction false} MergedFrame(node: Nodes, lim: nat, c1: Ctx, a: Tree, b: Tree, nd: Node)
    requires a.Inner? && b.Inner? && CtxPtrs(c1) + Ptrs(a) + Ptrs(b) == multiset(node.Keys)
    requires CtxShape(node, lim, c1, a.p) && Shape(node, lim, a) && Shape(node, lim, b)
    ensures CtxShape(node[a.p := nd] - {b.p}, lim, c1, a.p) && Shapes(node[a.p := nd] - {b.p}, lim, a.kids + b.kids)
  {
    hide InnerNode, PtrsOf;
    var node' := node[a.p := nd] - {b.p};
    var ps := CtxPtrs(c1) + PtrsOf(a.kids) + PtrsOf(b.kids);
    assert multiset{a.p} + multiset{b.p} + ps + multiset{} + multiset{} + multiset{} == multiset(node.Keys);
    Once(node.Keys, a.p, multiset{b.p}, ps, multiset{}, multiset{}, multiset{}, a.p);
    Once(node.Keys, a.p, multiset{b.p}, ps, multiset{}, multiset{}, multiset{}, b.p);
    assert SameOn(node, node', ps);
    CtxFrame(node, node', lim, c1, a.p);
    ShapesFrame(node, node', lim, a.kids);
    ShapesFrame(node, node', lim, b.kids);
    ShapesAppend(node', lim, a.kids, b.kids);
  }

  // ---------------------------------------------------------------- rebalancing

  /** A subtree of any size on a balanced path. `c0` is the path as it would be with a valid
      separator in front of an empty leaf; with that separator everything is in order. */
  ghost predicate Ready(m: Mem, lim: nat, c0: Ctx, c: Ctx, t: Tree, h: nat) {
    && Held(m, lim, c, t) && BalCtx(c, h, lim) && BalKids(t, h, lim) && |t.ks| <= lim
    && ProperCtx(c0) && c == Dented(c0, t) && Ordered(Whole(c0, t))
  }

  lemma ReadyShape(t: Tree, h: nat, lim: nat)
    requires BalKids(t, h, lim)
    ensures LocalShape(t)
  {
  }

  lemma BalSides(c: Ctx, h: nat, lim: nat)
    requires BalCtx(c, h, lim) && c.Hole?
    ensures |c.ks| == |c.ls| + |c.rs| <= lim
    ensures c.ls != [] ==> |c.ls[|c.ls| - 1].ks| <= lim && LocalShape(c.ls[|c.ls| - 1])
    ensures c.rs != [] ==> |c.rs[0].ks| <= lim && LocalShape(c.rs[0])
  {
    if c.ls != [] {
      assert Bal(c.ls[|c.ls| - 1], h, lim, lim / 2);
    }
    if c.rs != [] {
      assert Bal(c.rs[0], h, lim, lim / 2);
    }
  }

  lemma {:induction false} ShapeKids(node: Nodes, lim: nat, t: Tree)
    requires Shape(node, lim, t) && t.Inner?
    ensures Shapes(node, lim, t.kids) && forall i :: 0 <= i < |t.kids| ==> Shape(node, lim, t.kids[i])
  {
    assert Shapes(node, lim, t.kids);
  }

  lemma {:induction false} OnlyChild(m: Mem, lim: nat, t: Tree, h: nat)
    requires Held(m, lim, Top, t) && t.Inner? && BalKids(t, h, lim) && t.ks == [] && lim >= 2
    ensures h > 0 && |t.kids| == 1 && Items(t) == Items(t.kids[0]) && Bal(t.kids[0], h - 1, lim, lim / 2)
    ensures t.p in m.node && t.p in m.link && |m.node[t.p].children| == lim + 2
    ensures m.node[t.p].children[0] == t.kids[0].p && m.node[t.p].children[1] == NULL && t.kids[0].p != NULL
  {
    ShapeKids(m.node, lim, t);
    assert t.kids[1..] == [];
    InnerFields(lim, t.ks, Roots(t.kids));
    PadAt(Roots(t.kids), lim + 2, NULL, 0);
    PadAt(Roots(t.kids), lim + 2, NULL, 1);
  }

  lemma {:induction false} CollapseHeld(m: Mem, lim: nat, t: Tree)
    requires Held(m, lim, Top, t) && t.Inner? && |t.kids| == 1 && t.ks == []
    ensures var u := t.kids[0];
            Held(Mem(m.node - {t.p}, m.link[u.p := UNLINKED] - {t.p}, u.p), lim, Top, u)
  {
    hide InnerNode, Linked, Pad, Roots;
    var u := t.kids[0];
    ShapeKids(m.node, lim, t);
    var node', link' := m.node - {t.p}, m.link[u.p := UNLINKED] - {t.p};
    assert t.kids == [u] && t.kids[1..] == [];
    assert PtrsOf(t.kids) == Ptrs(u);
    assert multiset{t.p} + Ptrs(u) == multiset(m.node.Keys);
    RootCounted(u);
    Apart(m.node.Keys, multiset{t.p}, Ptrs(u), t.p);
    Apart(m.node.Keys, multiset{t.p}, Ptrs(u), u.p);
    assert SameOn(m.node, node', Ptrs(u));
    ShapeFrame(m.node, node', lim, u);
    assert node'.Keys == m.node.Keys - {t.p};
    forall x ensures Ptrs(u)[x] == multiset(node'.Keys)[x] {
      Apart(m.node.Keys, multiset{t.p}, Ptrs(u), x);
    }
    CollapseLinked(m, lim, t);
  }

  lemma {:induction false} CollapseLinked(m: Mem, lim: nat, t: Tree)
    requires Held(m, lim, Top, t) && t.Inner? && |t.kids| == 1
    ensures Linked(m.node - {t.p}, m.link[t.kids[0].p := UNLINKED] - {t.p})
  {
    var u := t.kids[0];
    var node', link' := m.node - {t.p}, m.link[u.p := UNLINKED] - {t.p};
    PadKeeps(Roots(t.kids), lim + 2, NULL, 0);
    assert m.node[t.p].children[0] == u.p;
    forall x, i | x in node' && 0 <= i < |node'[x].children| && node'[x].children[i] != NULL
      ensures node'[x].children[i] in link' && link'[node'[x].children[i]] == Link(x, i)
    {
      var y := m.node[x].children[i];
      assert m.link[y] == Link(x, i);
      if u.p != NULL {
        assert m.link[u.p] == Link(t.p, 0);
      }
      assert m.link[t.p] == UNLINKED;
    }
  }

  lemma {:induction false} UpReady(m: Mem, lim: nat, c0: Ctx, c: Ctx, t: Tree, h: nat)
    requires Ready(m, lim, c0, c, t, h)
    ensures t.p in m.link && m.link[t.p] == (if c.Top? then UNLINKED else Link(c.p, |c.ls|))
      && (c.Hole? ==> c.p != NULL)
    ensures c.Top? ==> c0.Top?
  {
    hide Linked, CtxShape;
    UpLink(m, lim, c, t.p);
    DentedShape(c0, t);
  }

  /** What the child slots beside a node hold. */
  lemma {:induction false} Neighbours(m: Mem, lim: nat, c: Ctx, t: Tree, h: nat)
    requires Held(m, lim, c, t) && c.Hole? && BalCtx(c, h, lim)
    ensures c.p in m.node && |m.node[c.p].children| == lim + 2 && |c.ks| == |c.ls| + |c.rs| <= lim
    ensures c.ls != [] ==>
      && m.node[c.p].children[|c.ls| - 1] == c.ls[|c.ls| - 1].p != NULL
      && c.ls[|c.ls| - 1].p in m.node && m.node[c.ls[|c.ls| - 1].p].n == |c.ls[|c.ls| - 1].ks| >= lim / 2
    ensures m.node[c.p].children[|c.ls| + 1] == (if c.rs == [] then NULL else c.rs[0].p)
    ensures c.rs != [] ==> c.rs[0].p != NULL && c.rs[0].p in m.node && m.node[c.rs[0].p].n == |c.rs[0].ks| >= lim / 2
  {
    hide Linked;
    var cs, i := CtxKids(c, t.p), |c.ls|;
    InnerFields(lim, c.ks, cs);
    PadAt(cs, lim + 2, NULL, i + 1);
    if c.ls != [] {
      PadAt(cs, lim + 2, NULL, i - 1);
      assert cs[i - 1] == c.ls[i - 1].p && Shape(m.node, lim, c.ls[i - 1]) && Bal(c.ls[i - 1], h, lim, lim / 2);
    }
    if c.rs != [] {
      assert cs[i + 1] == c.rs[0].p && Shape(m.node, lim, c.rs[0]) && Bal(c.rs[0], h, lim, lim / 2);
    }
  }

  // ---------------------------------------------------------------- a key already present

  lemma {:induction false} SpareSlots(node: Nodes, lim: nat, t: Tree, p: Ptr)
    requires Shape(node, lim, t) && p in Ptrs(t)
    ensures p in node && 0 <= node[p].n
    ensures node[p].n <= lim ==> |node[p].keys| == lim + 1 && node[p].keys[node[p].n] == INVALID_KEY
    decreases t, 1
  {
    if p == t.p {
      if node[p].n <= lim {
        PadAt(t.ks, lim + 1, INVALID_KEY, |t.ks|);
      }
    } else {
      SpareSlotsOf(node, lim, t.kids, p);
    }
  }

  lemma {:induction false} SpareSlotsOf(node: Nodes, lim: nat, kids: seq<Tree>, p: Ptr)
    requires Shapes(node, lim, kids) && p in PtrsOf(kids)
    ensures p in node && 0 <= node[p].n
    ensures node[p].n <= lim ==> |node[p].keys| == lim + 1 && node[p].keys[node[p].n] == INVALID_KEY
    decreases kids, 0
  {
    if p in Ptrs(kids[0]) {
      SpareSlots(node, lim, kids[0], p);
    } else {
      SpareSlotsOf(node, lim, kids[1..], p);
    }
  }

  /** Shifting the keys behind a key already present leaves memory that no tree explains,
      unless there is none to shift. */
  lemma {:induction false} DupHeld(m: Mem, m': Mem, lim: nat, c: Ctx, t: Tree, at: nat)
    requires Held(m, lim, c, t) && t.Leaf? && |t.vs| == |t.ks| <= lim && at < |t.ks| && INVALID_KEY !in t.ks
    requires m' == m.(node := m.node[t.p := m.node[t.p].(keys := Opened(t.ks, at + 1, lim + 1, INVALID_KEY),
                                                         vals := Opened(t.vs, at + 1, lim + 1, NULL))])
    ensures at + 1 == |t.ks| ==> m' == m
    ensures at + 1 < |t.ks| ==> forall u :: !Held(m', lim, Top, u)
  {
    hide Linked, CtxShape;
    var n := |t.ks|;
    if at + 1 == n {
      OpenedNone(t.ks, n, lim + 1, INVALID_KEY);
      OpenedNone(t.vs, n, lim + 1, NULL);
      assert m'.node == m.node;
    } else {
      assert m'.node[t.p].keys[n] == t.ks[n - 1] && t.ks[n - 1] in t.ks;
      forall u | Held(m', lim, Top, u) ensures false {
        assert Ptrs(u) == multiset(m'.node.Keys);
        assert t.p in Ptrs(u);
        SpareSlots(m'.node, lim, u, t.p);
      }
    }
  }
}
