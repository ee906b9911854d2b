/** The memory of a B+ tree: node bodies and parent links by address, and what it means
    for that memory to hold a tree or a path through one. */
module BPlusStore {
  import opened BPlusModel

  /** The arrays of a node: `limit + 1` keys and values, `limit + 2` children. */
  datatype Node = Node(leaf: bool, n: nat, keys: seq<Key>, vals: seq<Val>, children: seq<Ptr>)

  /** The fields `parent` and `parent_child_i`; the index is -1 when there is no parent. */
  datatype Link = Link(parent: Ptr, childIdx: int)

  const UNLINKED := Link(NULL, -1)

  type Nodes = map<Ptr, Node>
  type Links = map<Ptr, Link>

  function Pad<T>(s: seq<T>, n: nat, x: T): seq<T> {
    s + seq(if |s| < n then n - |s| else 0, _ => x)
  }

  function LeafNode(lim: nat, ks: seq<Key>, vs: seq<Val>): Node {
    Node(true, |ks|, Pad(ks, lim + 1, INVALID_KEY), Pad(vs, lim + 1, NULL), Pad([], lim + 2, NULL))
  }

  function InnerNode(lim: nat, ks: seq<Key>, cs: seq<Ptr>): Node {
    Node(false, |ks|, Pad(ks, lim + 1, INVALID_KEY), Pad([], lim + 1, NULL), Pad(cs, lim + 2, NULL))
  }

  lemma LeafFields(lim: nat, ks: seq<Key>, vs: seq<Val>)
    ensures LeafNode(lim, ks, vs)
      == Node(true, |ks|, Pad(ks, lim + 1, INVALID_KEY), Pad(vs, lim + 1, NULL), Pad([], lim + 2, NULL))
  {
  }

  lemma InnerFields(lim: nat, ks: seq<Key>, cs: seq<Ptr>)
    ensures InnerNode(lim, ks, cs)
      == Node(false, |ks|, Pad(ks, lim + 1, INVALID_KEY), Pad([], lim + 1, NULL), Pad(cs, lim + 2, NULL))
  {
  }

  ghost function Roots(kids: seq<Tree>): seq<Ptr> {
    seq(|kids|, i requires 0 <= i < |kids| => kids[i].p)
  }

  /** The node bodies are exactly those of `t`, unused slots invalid or null. */
  ghost predicate Shape(node: Nodes, lim: nat, t: Tree) {
    && t.p in node
    && match t
       case Leaf(p, ks, vs) => node[p] == LeafNode(lim, ks, vs)
       case Inner(p, ks, kids) => node[p] == InnerNode(lim, ks, Roots(kids)) && Shapes(node, lim, kids)
  }

  ghost predicate Shapes(node: Nodes, lim: nat, kids: seq<Tree>) {
    forall i :: 0 <= i < |kids| ==> Shape(node, lim, kids[i])
  }

  /** The nodes on the path `c` and beside it, when `hole` is the node at its end. */
  ghost predicate CtxShape(node: Nodes, lim: nat, c: Ctx, hole: Ptr) {
    c.Hole? ==>
      && c.p in node
      && node[c.p] == InnerNode(lim, c.ks, Roots(c.ls) + [hole] + Roots(c.rs))
      && Shapes(node, lim, c.ls) && Shapes(node, lim, c.rs)
      && CtxShape(node, lim, c.up, c.p)
  }

  /** Each occupied child slot names a node whose parent fields name that slot. */
  ghost predicate Linked(node: Nodes, link: Links) {
    forall p, i :: p in node && 0 <= i < |node[p].children| && node[p].children[i] != NULL ==>
      node[p].children[i] in link && link[node[p].children[i]] == Link(p, i)
  }

  // ---------------------------------------------------------------- addresses in use

  ghost function Ptrs(t: Tree): multiset<Ptr>
    decreases t, 1
  {
    multiset{t.p} + if t.Leaf? then multiset{} else PtrsOf(t.kids)
  }

  ghost function PtrsOf(kids: seq<Tree>): multiset<Ptr>
    decreases kids, 0
  {
    if kids == [] then multiset{} else Ptrs(kids[0]) + PtrsOf(kids[1..])
  }

  ghost function CtxPtrs(c: Ctx): multiset<Ptr> {
    if c.Top? then multiset{} else multiset{c.p} + PtrsOf(c.ls) + PtrsOf(c.rs) + CtxPtrs(c.up)
  }

  lemma {:induction false} PtrsAppend(a: seq<Tree>, b: seq<Tree>)
    ensures PtrsOf(a + b) == PtrsOf(a) + PtrsOf(b)
    decreases |a|
  {
    if a == [] {
      assert a + b == b;
    } else {
      assert (a + b)[1..] == a[1..] + b;
      PtrsAppend(a[1..], b);
    }
  }

  lemma PtrsAround(ls: seq<Tree>, t: Tree, rs: seq<Tree>)
    ensures PtrsOf(ls + [t] + rs) == PtrsOf(ls) + Ptrs(t) + PtrsOf(rs)
  {
    PtrsAppend(ls + [t], rs);
    PtrsAppend(ls, [t]);
    assert PtrsOf([t]) == Ptrs(t);
  }

  lemma {:induction false} PlugPtrs(c: Ctx, t: Tree)
    ensures Ptrs(Plug(c, t)) == CtxPtrs(c) + Ptrs(t)
    decreases c
  {
    if c.Hole? {
      PtrsAround(c.ls, t, c.rs);
      PlugPtrs(c.up, Inner(c.p, c.ks, c.ls + [t] + c.rs));
    }
  }

  lemma {:induction false} KidPtrs(kids: seq<Tree>, i: nat)
    requires i < |kids|
    ensures Ptrs(kids[i]) <= PtrsOf(kids)
    decreases |kids|
  {
    if i > 0 {
      KidPtrs(kids[1..], i - 1);
    }
  }

  // ---------------------------------------------------------------- framing

  ghost predicate SameOn(node: Nodes, node': Nodes, ps: multiset<Ptr>) {
    forall x :: x in ps && x in node ==> x in node' && node'[x] == node[x]
  }

  lemma {:induction false} ShapeFrame(node: Nodes, node': Nodes, lim: nat, t: Tree)
    requires Shape(node, lim, t) && SameOn(node, node', Ptrs(t))
    ensures Shape(node', lim, t)
    decreases t
  {
    if t.Inner? {
      forall i | 0 <= i < |t.kids| ensures Shape(node', lim, t.kids[i]) {
        KidPtrs(t.kids, i);
        ShapeFrame(node, node', lim, t.kids[i]);
      }
    }
  }

  lemma ShapesFrame(node: Nodes, node': Nodes, lim: nat, kids: seq<Tree>)
    requires Shapes(node, lim, kids) && SameOn(node, node', PtrsOf(kids))
    ensures Shapes(node', lim, kids)
  {
    forall i | 0 <= i < |kids| ensures Shape(node', lim, kids[i]) {
      KidPtrs(kids, i);
      ShapeFrame(node, node', lim, kids[i]);
    }
  }

  lemma {:induction false} CtxFrame(node: Nodes, node': Nodes, lim: nat, c: Ctx, hole: Ptr)
    requires CtxShape(node, lim, c, hole) && SameOn(node, node', CtxPtrs(c))
    ensures CtxShape(node', lim, c, hole)
    decreases c
  {
    if c.Hole? {
      ShapesFrame(node, node', lim, c.ls);
      ShapesFrame(node, node', lim, c.rs);
      CtxFrame(node, node', lim, c.up, c.p);
    }
  }

  /** A path and the subtree at its end together are the whole tree, in memory as well. */
  lemma {:induction false} PlugShape(node: Nodes, lim: nat, c: Ctx, t: Tree)
    requires CtxShape(node, lim, c, t.p) && Shape(node, lim, t)
    ensures Shape(node, lim, Plug(c, t))
    decreases c
  {
    if c.Hole? {
      assert Roots(c.ls + [t] + c.rs) == Roots(c.ls) + [t.p] + Roots(c.rs);
      PlugShape(node, lim, c.up, Inner(c.p, c.ks, c.ls + [t] + c.rs));
    }
  }

  lemma {:induction false} IntoShape(node: Nodes, lim: nat, c: Ctx, t: Tree, i: nat)
    requires CtxShape(node, lim, c, t.p) && Shape(node, lim, t) && t.Inner? && i < |t.kids|
    ensures CtxShape(node, lim, Into(c, t, i), t.kids[i].p) && Shape(node, lim, t.kids[i])
  {
    assert Roots(t.kids) == Roots(t.kids[..i]) + [t.kids[i].p] + Roots(t.kids[i + 1..]);
    assert Shapes(node, lim, t.kids[..i]) && Shapes(node, lim, t.kids[i + 1..]);
  }

  lemma {:induction false} IntoPtrs(c: Ctx, t: Tree, i: nat)
    requires t.Inner? && i < |t.kids|
    ensures CtxPtrs(Into(c, t, i)) + Ptrs(t.kids[i]) == CtxPtrs(c) + Ptrs(t)
  {
    assert t.kids == t.kids[..i] + [t.kids[i]] + t.kids[i + 1..];
    PtrsAround(t.kids[..i], t.kids[i], t.kids[i + 1..]);
  }

  function RootPtr(c: Ctx, hole: Ptr): Ptr {
    if c.Top? then hole else RootPtr(c.up, c.p)
  }

  lemma {:induction false} PlugRoot(c: Ctx, t: Tree)
    ensures Plug(c, t).p == RootPtr(c, t.p)
    decreases c
  {
    if c.Hole? {
      PlugRoot(c.up, Inner(c.p, c.ks, c.ls + [t] + c.rs));
    }
  }

  // ---------------------------------------------------------------- child links

  ghost predicate LinkedKids(link: Links, p: Ptr, cs: seq<Ptr>) {
    forall j :: 0 <= j < |cs| ==> cs[j] in link && link[cs[j]] == Link(p, j)
  }

  ghost predicate OnlyRelinks(link: Links, link': Links, cs: seq<Ptr>) {
    link'.Keys == link.Keys && forall x :: x in link && x !in cs ==> link'[x] == link[x]
  }

  /** Some node has `x` in the child slot its link fields name. */
  ghost predicate Attached(node: Nodes, link: Links, x: Ptr)
    requires x in link
  {
    var l := link[x];
    l.parent in node && 0 <= l.childIdx < |node[l.parent].children| && node[l.parent].children[l.childIdx] == x
  }

  /** Rewriting one inner node and the links of its kids keeps all links exact, provided
      no kid was hanging elsewhere. */
  lemma LinkedUpdate(node: Nodes, link: Links, link': Links, lim: nat, p: Ptr, ks: seq<Key>, cs: seq<Ptr>)
    requires Linked(node, link) && LinkedKids(link', p, cs) && OnlyRelinks(link, link', cs)
    requires forall x :: x in cs ==> x in link && (link[x].parent == p || !Attached(node, link, x))
    ensures Linked(node[p := InnerNode(lim, ks, cs)], link')
  {
    var node' := node[p := InnerNode(lim, ks, cs)];
    forall q, i | q in node' && 0 <= i < |node'[q].children| && node'[q].children[i] != NULL
      ensures node'[q].children[i] in link' && link'[node'[q].children[i]] == Link(q, i)
    {
      var x := node'[q].children[i];
      if q == p {
        assert x == cs[i];
      } else {
        assert link[x] == Link(q, i);
        assert Attached(node, link, x);
      }
    }
  }

  /** Rewriting a leaf keeps all links exact. */
  lemma LinkedLeaf(node: Nodes, link: Links, lim: nat, p: Ptr, ks: seq<Key>, vs: seq<Val>)
    requires Linked(node, link)
    ensures Linked(node[p := LeafNode(lim, ks, vs)], link)
  {
  }

  /** Rewriting keys keeps all links exact. */
  lemma LinkedKeys(node: Nodes, link: Links, p: Ptr, keys: seq<Key>)
    requires Linked(node, link) && p in node
    ensures Linked(node[p := node[p].(keys := keys)], link)
  {
  }
}
