/** The mathematical side of the B+ tree: trees with a pointer per node, one-hole
    contexts for the path from the root to a node, and the in-order item sequence in
    which separators and entries are interleaved.  A tree is ordered exactly when that
    sequence is strictly increasing, so moving keys between siblings and parents is
    judged by what it does to one flat sequence. */
module BPlusModel {

  const INVALID_KEY: Key := 0xFFFF_FFFF_FFFF_FFFF

  type Key = int
  type Val = int
  type Ptr = int

  const NULL: Ptr := 0

  datatype Item = Entry(key: Key, val: Val) | Sep(key: Key)

  /** A separator sorts just before the entry with the same key: everything to its left is
      smaller than it, everything to its right is at least it. */
  function Rank(x: Item): int {
    if x.Sep? then 2 * x.key else 2 * x.key + 1
  }

  ghost predicate Sorted(s: seq<Item>) {
    forall i, j :: 0 <= i < j < |s| ==> Rank(s[i]) < Rank(s[j])
  }

  ghost function Contents(s: seq<Item>): map<Key, Val> {
    if s == [] then map[]
    else
      var m := Contents(s[..|s| - 1]);
      var x := s[|s| - 1];
      if x.Entry? then m[x.key := x.val] else m
  }

  datatype Tree =
    | Leaf(p: Ptr, ks: seq<Key>, vs: seq<Val>)
    | Inner(p: Ptr, ks: seq<Key>, kids: seq<Tree>)

  /** The path from the root to a subtree: at each level the kids left and right of it. */
  datatype Ctx = Top | Hole(p: Ptr, ks: seq<Key>, ls: seq<Tree>, rs: seq<Tree>, up: Ctx)

  function Plug(c: Ctx, t: Tree): Tree {
    match c
    case Top => t
    case Hole(p, ks, ls, rs, up) => Plug(up, Inner(p, ks, ls + [t] + rs))
  }

  function InsertAt<T>(s: seq<T>, i: nat, x: T): seq<T>
    requires i <= |s|
  {
    s[..i] + [x] + s[i..]
  }

  function RemoveAt<T>(s: seq<T>, i: nat): seq<T>
    requires i < |s|
  {
    s[..i] + s[i + 1..]
  }

  // ---------------------------------------------------------------- in-order items

  ghost function Entries(ks: seq<Key>, vs: seq<Val>): seq<Item> {
    if ks == [] || vs == [] then [] else [Entry(ks[0], vs[0])] + Entries(ks[1..], vs[1..])
  }

  ghost function Items(t: Tree): seq<Item>
    decreases t, 1
  {
    match t
    case Leaf(_, ks, vs) => Entries(ks, vs)
    case Inner(_, ks, kids) => if kids == [] then [] else Items(kids[0]) + ItemsR(ks, kids[1..])
  }

  /** kid, separator, kid, separator, ... */
  ghost function ItemsL(ks: seq<Key>, kids: seq<Tree>): seq<Item>
    decreases kids, 0
  {
    if ks == [] || kids == [] then [] else
    Items(kids[0]) + [Sep(ks[0])] + ItemsL(ks[1..], kids[1..])
  }

  /** separator, kid, separator, kid, ... */
  ghost function ItemsR(ks: seq<Key>, kids: seq<Tree>): seq<Item>
    decreases kids, 0
  {
    if ks == [] || kids == [] then [] else
    [Sep(ks[0])] + Items(kids[0]) + ItemsR(ks[1..], kids[1..])
  }

  ghost predicate ProperCtx(c: Ctx) {
    c.Hole? ==> |c.ks| == |c.ls| + |c.rs| && ProperCtx(c.up)
  }

  ghost function Before(c: Ctx): seq<Item>
    requires ProperCtx(c)
  {
    if c.Top? then [] else Before(c.up) + ItemsL(c.ks[..|c.ls|], c.ls)
  }

  ghost function After(c: Ctx): seq<Item>
    requires ProperCtx(c)
  {
    if c.Top? then [] else ItemsR(c.ks[|c.ls|..], c.rs) + After(c.up)
  }

  lemma {:induction false} EntriesAppend(ks: seq<Key>, vs: seq<Val>, ks': seq<Key>, vs': seq<Val>)
    requires |ks| == |vs|
    ensures Entries(ks + ks', vs + vs') == Entries(ks, vs) + Entries(ks', vs')
    decreases |ks|
  {
    if ks == [] {
      assert ks + ks' == ks' && vs + vs' == vs';
    } else {
      assert (ks + ks')[1..] == ks[1..] + ks' && (vs + vs')[1..] == vs[1..] + vs';
      EntriesAppend(ks[1..], vs[1..], ks', vs');
    }
  }

  lemma {:induction false} ItemsLAppend(ks: seq<Key>, kids: seq<Tree>, ks': seq<Key>, kids': seq<Tree>)
    requires |ks| == |kids|
    ensures ItemsL(ks + ks', kids + kids') == ItemsL(ks, kids) + ItemsL(ks', kids')
    decreases |ks|
  {
    if ks == [] {
      assert ks + ks' == ks' && kids + kids' == kids';
    } else {
      assert (ks + ks')[1..] == ks[1..] + ks' && (kids + kids')[1..] == kids[1..] + kids';
      ItemsLAppend(ks[1..], kids[1..], ks', kids');
    }
  }

  lemma {:induction false} ItemsRAppend(ks: seq<Key>, kids: seq<Tree>, ks': seq<Key>, kids': seq<Tree>)
    requires |ks| == |kids|
    ensures ItemsR(ks + ks', kids + kids') == ItemsR(ks, kids) + ItemsR(ks', kids')
    decreases |ks|
  {
    if ks == [] {
      assert ks + ks' == ks' && kids + kids' == kids';
    } else {
      assert (ks + ks')[1..] == ks[1..] + ks' && (kids + kids')[1..] == kids[1..] + kids';
      ItemsRAppend(ks[1..], kids[1..], ks', kids');
    }
  }

  lemma Assoc<T>(a: seq<T>, b: seq<T>, c: seq<T>)
    ensures a + b + c == a + (b + c)
  {
  }

  lemma Regroup<T>(a: seq<T>, b: seq<T>, c: seq<T>, d: seq<T>, e: seq<T>)
    ensures a + (b + c + d) + e == (a + b) + c + (d + e)
  {
  }

  /** Reading a node from its first kid rightwards or up to its last kid gives the same items. */
  lemma {:induction false} LeftRight(ks: seq<Key>, ls: seq<Tree>, t: Tree)
    requires |ks| == |ls|
    ensures Items((ls + [t])[0]) + ItemsR(ks, (ls + [t])[1..]) == ItemsL(ks, ls) + Items(t)
    decreases |ks|
  {
    if ks == [] {
      assert ls + [t] == [t];
    } else {
      var ms := ls[1..] + [t];
      assert (ls + [t])[1..] == ms;
      LeftRight(ks[1..], ls[1..], t);
      var s := [Sep(ks[0])];
      Assoc(s, Items(ms[0]), ItemsR(ks[1..], ms[1..]));
      Assoc(s, ItemsL(ks[1..], ls[1..]), Items(t));
      Assoc(Items(ls[0]), s, ItemsL(ks[1..], ls[1..]));
      Assoc(Items(ls[0]), s + ItemsL(ks[1..], ls[1..]), Items(t));
    }
  }

  /** An inner node read around any one of its kids. */
  lemma {:induction false} ItemsAround(p: Ptr, ks: seq<Key>, ls: seq<Tree>, t: Tree, rs: seq<Tree>)
    requires |ks| == |ls| + |rs|
    ensures Items(Inner(p, ks, ls + [t] + rs))
         == ItemsL(ks[..|ls|], ls) + Items(t) + ItemsR(ks[|ls|..], rs)
  {
    var ms, n := ls + [t], |ls|;
    assert (ms + rs)[1..] == ms[1..] + rs && (ms + rs)[0] == ms[0];
    assert ks == ks[..n] + ks[n..];
    ItemsRAppend(ks[..n], ms[1..], ks[n..], rs);
    LeftRight(ks[..n], ls, t);
    Assoc(Items(ms[0]), ItemsR(ks[..n], ms[1..]), ItemsR(ks[n..], rs));
  }

  lemma {:induction false} PlugItems(c: Ctx, t: Tree)
    requires ProperCtx(c)
    ensures Items(Plug(c, t)) == Before(c) + Items(t) + After(c)
    decreases c
  {
    if c.Hole? {
      var n := |c.ls|;
      ItemsAround(c.p, c.ks, c.ls, t, c.rs);
      PlugItems(c.up, Inner(c.p, c.ks, c.ls + [t] + c.rs));
      Regroup(Before(c.up), ItemsL(c.ks[..n], c.ls), Items(t), ItemsR(c.ks[n..], c.rs), After(c.up));
    }
  }

  // ---------------------------------------------------------------- balance

  /** Height and occupancy: every node below holds between `lim / 2` and `lim` keys. */
  ghost predicate BalKids(t: Tree, h: nat, lim: nat)
    decreases t
  {
    match t
    case Leaf(_, ks, vs) => h == 0 && |ks| == |vs|
    case Inner(_, ks, kids) =>
      && h > 0 && |kids| == |ks| + 1
      && forall i :: 0 <= i < |kids| ==> lim / 2 <= |kids[i].ks| <= lim && BalKids(kids[i], h - 1, lim)
  }

  ghost predicate Bal(t: Tree, h: nat, lim: nat, min: nat) {
    min <= |t.ks| <= lim && BalKids(t, h, lim)
  }

  ghost predicate AllBal(kids: seq<Tree>, h: nat, lim: nat) {
    forall i :: 0 <= i < |kids| ==> Bal(kids[i], h, lim, lim / 2)
  }

  /** The context of a subtree of height `h`. */
  ghost predicate BalCtx(c: Ctx, h: nat, lim: nat) {
    c.Hole? ==>
      && |c.ks| == |c.ls| + |c.rs|
      && (if c.up.Top? then 1 else lim / 2) <= |c.ks| <= lim
      && AllBal(c.ls, h, lim) && AllBal(c.rs, h, lim)
      && BalCtx(c.up, h + 1, lim)
  }

  function RootMin(t: Tree): nat {
    if t.Leaf? then 0 else 1
  }

  lemma {:induction false} BalCtxProper(c: Ctx, h: nat, lim: nat)
    requires BalCtx(c, h, lim)
    ensures ProperCtx(c)
    decreases c
  {
    if c.Hole? {
      BalCtxProper(c.up, h + 1, lim);
    }
  }

  ghost function Depth(c: Ctx): nat {
    if c.Top? then 0 else 1 + Depth(c.up)
  }

  lemma {:induction false} PlugBal(c: Ctx, t: Tree, h: nat, lim: nat)
    requires BalCtx(c, h, lim)
    requires Bal(t, h, lim, if c.Top? then RootMin(t) else lim / 2)
    requires lim >= 2
    ensures Bal(Plug(c, t), h + Depth(c), lim, RootMin(Plug(c, t)))
    decreases c
  {
    if c.Hole? {
      PlugBal(c.up, Inner(c.p, c.ks, c.ls + [t] + c.rs), h + 1, lim);
    }
  }

  // ---------------------------------------------------------------- order

  ghost function EntrySet(s: seq<Item>): set<Item> {
    set x | x in s && x.Entry?
  }

  lemma {:induction false} ContentsOf(s: seq<Item>)
    requires Sorted(s)
    ensures forall k: Key, v: Val :: (k in Contents(s) && Contents(s)[k] == v) <==> Entry(k, v) in s
    decreases |s|
  {
    if s != [] {
      var s0 := s[..|s| - 1];
      ContentsOf(s0);
      var x := s[|s| - 1];
      assert s == s0 + [x];
      assert forall y :: y in s0 ==> Rank(y) < Rank(x);
      forall k: Key, v: Val
        ensures (k in Contents(s) && Contents(s)[k] == v) <==> Entry(k, v) in s
      {
      }
    }
  }

  /** Contents depend on the entries alone: separators may move, appear and disappear. */
  lemma SameEntriesSameContents(s: seq<Item>, s': seq<Item>)
    requires Sorted(s) && Sorted(s') && EntrySet(s) == EntrySet(s')
    ensures Contents(s) == Contents(s')
  {
    ContentsOf(s);
    ContentsOf(s');
    forall k | k in Contents(s) ensures k in Contents(s') && Contents(s')[k] == Contents(s)[k] {
      assert Entry(k, Contents(s)[k]) in EntrySet(s);
    }
    forall k | k in Contents(s') ensures k in Contents(s) {
      assert Entry(k, Contents(s')[k]) in EntrySet(s');
    }
  }

  lemma InsertContents(s: seq<Item>, s': seq<Item>, k: Key, v: Val)
    requires Sorted(s) && Sorted(s') && k !in Contents(s)
    requires EntrySet(s') == EntrySet(s) + {Entry(k, v)}
    ensures Contents(s') == Contents(s)[k := v]
  {
    ContentsOf(s);
    ContentsOf(s');
    assert Entry(k, v) in EntrySet(s');
    forall x | x in Contents(s) ensures x in Contents(s') && (x != k ==> Contents(s')[x] == Contents(s)[x]) {
      assert Entry(x, Contents(s)[x]) in EntrySet(s');
    }
    forall x | x in Contents(s') ensures x in Contents(s) || x == k {
      assert Entry(x, Contents(s')[x]) in EntrySet(s');
    }
  }

  lemma RemoveContents(s: seq<Item>, s': seq<Item>, k: Key, v: Val)
    requires Sorted(s) && Sorted(s') && Entry(k, v) in s
    requires EntrySet(s') == EntrySet(s) - {Entry(k, v)}
    ensures k in Contents(s) && Contents(s)[k] == v && Contents(s') == Contents(s) - {k}
  {
    ContentsOf(s);
    ContentsOf(s');
    hide Contents, Sorted;
    forall x | x in Contents(s) && x != k ensures x in Contents(s') && Contents(s')[x] == Contents(s)[x] {
      assert Entry(x, Contents(s)[x]) in EntrySet(s');
    }
    forall x | x in Contents(s') ensures x in Contents(s) && x != k {
      assert Entry(x, Contents(s')[x]) in EntrySet(s');
    }
  }

  /** `c` is the place of `key`: whatever is left of the hole sorts before it, whatever is
      right of it sorts after. */
  ghost predicate Located(c: Ctx, key: Key)
    requires ProperCtx(c)
  {
    && (forall x :: x in Before(c) ==> Rank(x) < Rank(Entry(key, 0)))
    && (forall x :: x in After(c) ==> Rank(Entry(key, 0)) < Rank(x))
  }

  function ChildIndex(ks: seq<Key>, key: Key): (i: nat)
    ensures i <= |ks|
    ensures forall j :: 0 <= j < i ==> ks[j] <= key
    ensures i < |ks| ==> ks[i] > key
  {
    if ks == [] || ks[0] > key then 0 else 1 + ChildIndex(ks[1..], key)
  }

  ghost function Into(c: Ctx, t: Tree, i: nat): Ctx
    requires t.Inner? && i < |t.kids|
  {
    Hole(t.p, t.ks, t.kids[..i], t.kids[i + 1..], c)
  }

  lemma {:induction false} IntoItems(c: Ctx, t: Tree, i: nat)
    requires ProperCtx(c) && t.Inner? && |t.kids| == |t.ks| + 1 && i <= |t.ks|
    ensures ProperCtx(Into(c, t, i))
    ensures Before(Into(c, t, i)) + Items(t.kids[i]) + After(Into(c, t, i)) == Before(c) + Items(t) + After(c)
  {
    var ls, rs := t.kids[..i], t.kids[i + 1..];
    assert ls + [t.kids[i]] + rs == t.kids;
    ItemsAround(t.p, t.ks, ls, t.kids[i], rs);
    Regroup(Before(c), ItemsL(t.ks[..i], ls), Items(t.kids[i]), ItemsR(t.ks[i..], rs), After(c));
  }

  /** Descending into the child that the key comparison picks keeps the key located. */
  lemma {:induction false} LocatedInto(c: Ctx, t: Tree, key: Key, i: nat)
    requires ProperCtx(c) && t.Inner? && |t.kids| == |t.ks| + 1 && i <= |t.ks|
    requires Sorted(Before(c) + Items(t) + After(c)) && Located(c, key)
    requires i == 0 || t.ks[i - 1] <= key
    requires i == |t.ks| || t.ks[i] > key
    ensures ProperCtx(Into(c, t, i)) && Located(Into(c, t, i), key)
  {
    hide Sorted, ItemsL;
    var d := Into(c, t, i);
    IntoItems(c, t, i);
    if i > 0 {
      LastSep(t.ks[..i], t.kids[..i]);
    } else {
      assert Before(d) == Before(c);
    }
    if i < |t.ks| {
      assert ItemsR(t.ks[i..], t.kids[i + 1..])[0] == Sep(t.ks[i]);
    } else {
      assert After(d) == After(c);
    }
    SortedSides(Before(d), Items(t.kids[i]), After(d));
  }

  lemma SortedSides(b: seq<Item>, m: seq<Item>, a: seq<Item>)
    requires Sorted(b + m + a)
    ensures forall x :: x in b ==> Rank(x) <= Rank(b[|b| - 1])
    ensures forall x :: x in a ==> Rank(a[0]) <= Rank(x)
  {
    assert Sorted(b) && Sorted(a) by { SortedParts(b, m, a); }
  }

  lemma SortedParts(b: seq<Item>, m: seq<Item>, a: seq<Item>)
    requires Sorted(b + m + a)
    ensures Sorted(b) && Sorted(m) && Sorted(a)
    ensures forall x, y :: x in b && y in m + a ==> Rank(x) < Rank(y)
    ensures forall x, y :: x in b + m && y in a ==> Rank(x) < Rank(y)
  {
    var s := b + m + a;
    assert b == s[..|b|] && m == s[|b|..|b + m|] && a == s[|b + m|..];
    assert b + m == s[..|b + m|] && m + a == s[|b|..];
  }

  lemma {:induction false} LastSep(ks: seq<Key>, kids: seq<Tree>)
    requires |ks| == |kids| > 0
    ensures ItemsL(ks, kids) == ItemsL(ks[..|ks| - 1], kids[..|ks| - 1]) + Items(kids[|ks| - 1]) + [Sep(ks[|ks| - 1])]
  {
    var n := |ks| - 1;
    assert ks == ks[..n] + [ks[n]] && kids == kids[..n] + [kids[n]];
    ItemsLAppend(ks[..n], kids[..n], [ks[n]], [kids[n]]);
    assert ItemsL([ks[n]], [kids[n]]) == Items(kids[n]) + [Sep(ks[n])];
  }

  // ---------------------------------------------------------------- insertion

  /** The node above the hole with two subtrees in place of one. */
  ghost function ForkedTree(c: Ctx, tl: Tree, key: Key, tr: Tree): Tree
    requires c.Hole? && |c.ls| <= |c.ks|
  {
    Inner(c.p, InsertAt(c.ks, |c.ls|, key), c.ls + [tl, tr] + c.rs)
  }

  ghost function PairItems(c: Ctx, tl: Tree, key: Key, tr: Tree): seq<Item>
    requires ProperCtx(c)
  {
    Before(c) + (Items(tl) + [Sep(key)] + Items(tr)) + After(c)
  }

  lemma {:induction false} ForkedItems(c: Ctx, tl: Tree, key: Key, tr: Tree)
    requires c.Hole? && ProperCtx(c)
    ensures Before(c.up) + Items(ForkedTree(c, tl, key, tr)) + After(c.up) == PairItems(c, tl, key, tr)
  {
    var i, ks := |c.ls|, InsertAt(c.ks, |c.ls|, key);
    assert c.ls + [tl, tr] + c.rs == c.ls + [tl] + ([tr] + c.rs);
    ItemsAround(c.p, ks, c.ls, tl, [tr] + c.rs);
    assert ks[..i] == c.ks[..i] && ks[i..] == [key] + c.ks[i..];
    assert ([tr] + c.rs)[1..] == c.rs && ks[i..][1..] == c.ks[i..];
    var l, r, mid := ItemsL(c.ks[..i], c.ls), ItemsR(c.ks[i..], c.rs), [Sep(key)] + Items(tr);
    assert ItemsR(ks[i..], [tr] + c.rs) == mid + r;
    RegroupFork(Before(c.up), l, Items(tl), [Sep(key)], Items(tr), r, After(c.up));
  }

  lemma RegroupFork<T>(a: seq<T>, b: seq<T>, c: seq<T>, d: seq<T>, e: seq<T>, f: seq<T>, g: seq<T>)
    ensures a + (b + c + (d + e + f)) + g == (a + b) + (c + d + e) + (f + g)
  {
  }

  lemma {:induction false} ForkedBal(c: Ctx, tl: Tree, key: Key, tr: Tree, h: nat, lim: nat)
    requires c.Hole? && BalCtx(c, h, lim) && Bal(tl, h, lim, lim / 2) && Bal(tr, h, lim, lim / 2)
    ensures BalKids(ForkedTree(c, tl, key, tr), h + 1, lim)
    ensures |ForkedTree(c, tl, key, tr).ks| == |c.ks| + 1
  {
    var kids := c.ls + [tl, tr] + c.rs;
    forall i | 0 <= i < |kids| ensures Bal(kids[i], h, lim, lim / 2) {
      if i < |c.ls| {
        assert kids[i] == c.ls[i];
      } else if i > |c.ls| + 1 {
        assert kids[i] == c.rs[i - |c.ls| - 2];
      }
    }
  }

  lemma {:induction false} SplitItems(p: Ptr, r: Ptr, ks: seq<Key>, kids: seq<Tree>, mid: nat)
    requires |kids| == |ks| + 1 && mid < |ks|
    ensures Items(Inner(p, ks, kids))
         == Items(Inner(p, ks[..mid], kids[..mid + 1])) + [Sep(ks[mid])] + Items(Inner(r, ks[mid + 1..],
           kids[mid + 1..]))
  {
    var ls, t, rs := kids[..mid], kids[mid], kids[mid + 1..];
    assert kids == ls + [t] + rs && kids[..mid + 1] == ls + [t] + [];
    ItemsAround(p, ks, ls, t, rs);
    ItemsAround(p, ks[..mid], ls, t, []);
    assert ks[..mid][..mid] == ks[..mid] && ks[..mid][mid..] == [];
    assert ks[mid..][1..] == ks[mid + 1..];
    var a, b := ItemsL(ks[..mid], ls) + Items(t), Items(rs[0]) + ItemsR(ks[mid + 1..], rs[1..]);
    assert a + [] == a;
    Assoc([Sep(ks[mid])], Items(rs[0]), ItemsR(ks[mid + 1..], rs[1..]));
    Assoc(a, [Sep(ks[mid])], b);
  }

  lemma {:induction false} SplitLeafItems(p: Ptr, r: Ptr, ks: seq<Key>, vs: seq<Val>, mid: nat)
    requires |ks| == |vs| && mid <= |ks|
    ensures Items(Leaf(p, ks, vs)) == Items(Leaf(p, ks[..mid], vs[..mid])) + Items(Leaf(r, ks[mid..], vs[mid..]))
  {
    assert ks == ks[..mid] + ks[mid..] && vs == vs[..mid] + vs[mid..];
    EntriesAppend(ks[..mid], vs[..mid], ks[mid..], vs[mid..]);
  }

  lemma {:induction false} SepInL(ks: seq<Key>, kids: seq<Tree>, j: nat)
    requires j < |ks| == |kids|
    ensures Sep(ks[j]) in ItemsL(ks, kids)
    decreases j
  {
    if j > 0 {
      SepInL(ks[1..], kids[1..], j - 1);
    }
  }

  lemma {:induction false} SepInR(ks: seq<Key>, kids: seq<Tree>, j: nat)
    requires j < |ks| == |kids|
    ensures Sep(ks[j]) in ItemsR(ks, kids)
    decreases j
  {
    if j > 0 {
      SepInR(ks[1..], kids[1..], j - 1);
    }
  }

  lemma {:induction false} SepInCtx(c: Ctx, j: nat)
    requires c.Hole? && ProperCtx(c) && j < |c.ks|
    ensures j < |c.ls| ==> Sep(c.ks[j]) in Before(c)
    ensures j >= |c.ls| ==> Sep(c.ks[j]) in After(c)
  {
    if j < |c.ls| {
      SepInL(c.ks[..|c.ls|], c.ls, j);
    } else {
      SepInR(c.ks[|c.ls|..], c.rs, j - |c.ls|);
    }
  }

  /** In an ordered tree the new separator fits exactly at the hole. */
  lemma {:induction false} PairOrder(c: Ctx, tl: Tree, key: Key, tr: Tree)
    requires c.Hole? && ProperCtx(c) && Sorted(PairItems(c, tl, key, tr))
    ensures forall j :: 0 <= j < |c.ls| ==> c.ks[j] < key
    ensures forall j :: |c.ls| <= j < |c.ks| ==> key < c.ks[j]
  {
    var m := Items(tl) + [Sep(key)] + Items(tr);
    SortedParts(Before(c), m, After(c));
    assert Sep(key) in m;
    forall j | 0 <= j < |c.ks| ensures if j < |c.ls| then c.ks[j] < key else key < c.ks[j] {
      SepInCtx(c, j);
      if j < |c.ls| {
        assert Rank(Sep(c.ks[j])) < Rank(Sep(key));
      } else {
        assert Rank(Sep(key)) < Rank(Sep(c.ks[j]));
      }
    }
  }

  /** Splitting an overfull inner node around its middle key changes no item. */
  lemma {:induction false} SplitStep(c: Ctx, t: Tree, r: Ptr, h: nat, lim: nat)
    requires ProperCtx(c) && t.Inner? && BalKids(t, h, lim) && |t.ks| == lim + 1 && lim >= 2
    ensures var mid := (lim + 1) / 2;
            var l, u := Inner(t.p, t.ks[..mid], t.kids[..mid + 1]), Inner(r, t.ks[mid + 1..], t.kids[mid + 1..]);
            && PairItems(c, l, t.ks[mid], u) == Before(c) + Items(t) + After(c)
            && Bal(l, h, lim, lim / 2) && Bal(u, h, lim, lim / 2)
  {
    hide Items, Before, After;
    SplitItems(t.p, r, t.ks, t.kids, (lim + 1) / 2);
  }

  lemma {:induction false} NewRoot(p: Ptr, tl: Tree, key: Key, tr: Tree, h: nat, lim: nat)
    requires Bal(tl, h, lim, lim / 2) && Bal(tr, h, lim, lim / 2) && lim >= 2
    ensures Items(Inner(p, [key], [tl, tr])) == PairItems(Top, tl, key, tr)
    ensures Bal(Inner(p, [key], [tl, tr]), h + 1, lim, 1)
  {
    assert [tl, tr][1..] == [tr] && [key][1..] == [] && [tr][1..] == [];
    assert ItemsR([key], [tr]) == [Sep(key)] + Items(tr);
    assert PairItems(Top, tl, key, tr) == Items(tl) + [Sep(key)] + Items(tr);
    Assoc(Items(tl), [Sep(key)], Items(tr));
  }

  lemma PlugTop(t: Tree)
    ensures Plug(Top, t) == t
  {
  }

  lemma {:induction false} PlugInner(c: Ctx, t: Tree)
    requires t.Inner?
    ensures Plug(c, t).Inner?
    decreases c
  {
    if c.Hole? {
      PlugInner(c.up, Inner(c.p, c.ks, c.ls + [t] + c.rs));
    }
  }

  ghost function MinKeys(c: Ctx, t: Tree, lim: nat): nat {
    if c.Top? then RootMin(t) else lim / 2
  }

  ghost function Whole(c: Ctx, t: Tree): seq<Item>
    requires ProperCtx(c)
  {
    Before(c) + Items(t) + After(c)
  }

  // ---------------------------------------------------------------- leaves

  /** `at` is where `key` belongs in `ks`. */
  ghost predicate Slot(ks: seq<Key>, key: Key, at: nat) {
    && at <= |ks|
    && (forall j :: 0 <= j < at ==> ks[j] < key)
    && (forall j :: at <= j < |ks| ==> key <= ks[j])
    && (forall j :: at < j < |ks| ==> key < ks[j])
  }

  lemma {:induction false} EntriesAt(ks: seq<Key>, vs: seq<Val>)
    requires |ks| == |vs|
    ensures |Entries(ks, vs)| == |ks|
    ensures forall i :: 0 <= i < |ks| ==> Entries(ks, vs)[i] == Entry(ks[i], vs[i])
    decreases |ks|
  {
    if ks != [] {
      EntriesAt(ks[1..], vs[1..]);
    }
  }

  lemma SortedInsert(p: seq<Item>, x: Item, q: seq<Item>)
    requires Sorted(p + q)
    requires forall y :: y in p ==> Rank(y) < Rank(x)
    requires forall y :: y in q ==> Rank(x) < Rank(y)
    ensures Sorted(p + [x] + q)
  {
    var s, s' := p + q, p + [x] + q;
    forall i, j | 0 <= i < j < |s'| ensures Rank(s'[i]) < Rank(s'[j]) {
      var i', j' := if i < |p| then i else i - 1, if j < |p| then j else j - 1;
      if i != |p| && j != |p| {
        assert s'[i] == s[i'] && s'[j] == s[j'];
      } else if i == |p| {
        assert s'[j] == q[j - |p| - 1];
      } else {
        assert s'[i] == p[i];
      }
    }
  }

  lemma SortedRemove(p: seq<Item>, x: Item, q: seq<Item>)
    requires Sorted(p + [x] + q)
    ensures Sorted(p + q)
  {
    var s, s' := p + q, p + [x] + q;
    forall i, j | 0 <= i < j < |s| ensures Rank(s[i]) < Rank(s[j]) {
      var i', j' := if i < |p| then i else i + 1, if j < |p| then j else j + 1;
      assert s[i] == s'[i'] && s[j] == s'[j'];
    }
  }

  /** A separator equal to the key of the entry right of it never breaks the order. */
  lemma SepBefore(p: seq<Item>, q: seq<Item>)
    requires Sorted(p + q) && q != [] && q[0].Entry?
    requires p != [] ==> Rank(p[|p| - 1]) < 2 * q[0].key
    ensures Sorted(p + [Sep(q[0].key)] + q)
  {
    assert p + q == p + [] + q;
    SortedParts(p, [], q);
    SortedSides(p, [], q);
    SortedInsert(p, Sep(q[0].key), q);
  }

  /** The place of `key` in the leaf that the search leads to. */
  lemma {:induction false} FindSlot(t: Tree, key: Key) returns (at: nat)
    requires t.Leaf? && |t.ks| == |t.vs| && Sorted(Items(t))
    ensures Slot(t.ks, key, at)
  {
    var ks, e := t.ks, Items(t);
    EntriesAt(t.ks, t.vs);
    at := 0;
    while at < |ks| && ks[at] < key
      invariant at <= |ks| && forall j :: 0 <= j < at ==> ks[j] < key
    {
      at := at + 1;
    }
    forall j | at <= j < |ks| ensures key <= ks[j] && (j > at ==> key < ks[j]) {
      if j > at {
        assert Rank(e[at]) < Rank(e[j]);
      }
    }
  }

  lemma {:induction false} InsertLeaf(c: Ctx, t: Tree, key: Key, val: Val, at: nat)
    requires ProperCtx(c) && t.Leaf? && |t.ks| == |t.vs| && Slot(t.ks, key, at) && key !in t.ks && Located(c, key)
    requires Sorted(Whole(c, t))
    ensures var s := Whole(c, Leaf(t.p, InsertAt(t.ks, at, key), InsertAt(t.vs, at, val)));
            Sorted(s) && EntrySet(s) == EntrySet(Whole(c, t)) + {Entry(key, val)}
            && forall x :: x in s ==> x in Whole(c, t) || x == Entry(key, val)
  {
    hide Before, After, Sorted, EntrySet, Entries, InsertAt;
    var ks, vs := t.ks, t.vs;
    EntriesInsert(ks, vs, key, val, at);
    EntriesAt(ks[..at], vs[..at]);
    EntriesAt(ks[at..], vs[at..]);
    InsertItem(Before(c), Entries(ks[..at], vs[..at]), Entry(key, val), Entries(ks[at..], vs[at..]), After(c));
  }

  lemma {:induction false} EntriesInsert(ks: seq<Key>, vs: seq<Val>, key: Key, val: Val, at: nat)
    requires |ks| == |vs| && at <= |ks|
    ensures Entries(ks, vs) == Entries(ks[..at], vs[..at]) + Entries(ks[at..], vs[at..])
    ensures Entries(InsertAt(ks, at, key), InsertAt(vs, at, val))
         == Entries(ks[..at], vs[..at]) + [Entry(key, val)] + Entries(ks[at..], vs[at..])
  {
    assert ks == ks[..at] + ks[at..] && vs == vs[..at] + vs[at..];
    EntriesAppend(ks[..at], vs[..at], ks[at..], vs[at..]);
    EntriesAppend(ks[..at] + [key], vs[..at] + [val], ks[at..], vs[at..]);
    EntriesAppend(ks[..at], vs[..at], [key], [val]);
    assert Entries([key], [val]) == [Entry(key, val)];
  }

  lemma InsertItem(b: seq<Item>, l: seq<Item>, x: Item, u: seq<Item>, a: seq<Item>)
    requires Sorted(b + (l + u) + a) && x.Entry?
    requires forall y :: y in b || y in l ==> Rank(y) < Rank(x)
    requires forall y :: y in u || y in a ==> Rank(x) < Rank(y)
    ensures Sorted(b + (l + [x] + u) + a)
    ensures EntrySet(b + (l + [x] + u) + a) == EntrySet(b + (l + u) + a) + {x}
  {
    assert b + (l + u) + a == (b + l) + (u + a);
    assert b + (l + [x] + u) + a == (b + l) + [x] + (u + a);
    SortedInsert(b + l, x, u + a);
  }

  /** What the search finds in the leaf is what the whole tree holds. */
  lemma {:induction false} LeafDecides(c: Ctx, t: Tree, key: Key)
    requires ProperCtx(c) && t.Leaf? && |t.ks| == |t.vs| && Located(c, key) && Sorted(Whole(c, t))
    ensures key in Contents(Whole(c, t)) <==> key in t.ks
    ensures forall i :: 0 <= i < |t.ks| && t.ks[i] == key ==> Contents(Whole(c, t))[key] == t.vs[i]
  {
    hide Before, After;
    var s, e := Whole(c, t), Entries(t.ks, t.vs);
    ContentsOf(s);
    EntriesAt(t.ks, t.vs);
    forall i | 0 <= i < |t.ks| && t.ks[i] == key ensures key in Contents(s) && Contents(s)[key] == t.vs[i] {
      assert e[i] in s;
    }
    if key in Contents(s) {
      var x := Entry(key, Contents(s)[key]);
      assert x in s && x !in Before(c) && x !in After(c);
      var i :| 0 <= i < |t.ks| && e[i] == x;
    }
  }

  lemma {:induction false} IntoBal(c: Ctx, t: Tree, i: nat, h: nat, lim: nat)
    requires t.Inner? && BalCtx(c, h, lim) && Bal(t, h, lim, if c.Top? then 1 else lim / 2) && i < |t.kids|
    ensures h > 0 && BalCtx(Into(c, t, i), h - 1, lim) && Bal(t.kids[i], h - 1, lim, lim / 2)
  {
  }

  /** Splitting an overfull leaf inserts one separator, the first key of the upper half. */
  lemma {:induction false} SplitLeafStep(c: Ctx, t: Tree, r: Ptr, lim: nat)
    requires ProperCtx(c) && t.Leaf? && |t.ks| == |t.vs| == lim + 1 && lim >= 2 && Sorted(Whole(c, t))
    ensures var mid := (lim + 1) / 2;
            var l, u := Leaf(t.p, t.ks[..mid], t.vs[..mid]), Leaf(r, t.ks[mid..], t.vs[mid..]);
            && Sorted(PairItems(c, l, t.ks[mid], u)) && EntrySet(PairItems(c, l, t.ks[mid], u)) == EntrySet(Whole(c, t))
            && (forall x :: x in PairItems(c, l, t.ks[mid], u) ==> x in Whole(c, t) || x == Sep(t.ks[mid]))
            && Bal(l, 0, lim, lim / 2) && Bal(u, 0, lim, lim / 2)
            && Entry(t.ks[mid], t.vs[mid]) in Whole(c, t)
  {
    hide Before, After, Sorted, EntrySet, Entries;
    var mid := (lim + 1) / 2;
    SplitLeafItems(t.p, r, t.ks, t.vs, mid);
    EntriesAt(t.ks[..mid], t.vs[..mid]);
    EntriesAt(t.ks[mid..], t.vs[mid..]);
    InsertSep(Before(c), Entries(t.ks[..mid], t.vs[..mid]), Entries(t.ks[mid..], t.vs[mid..]), After(c));
  }

  lemma InsertSep(b: seq<Item>, l: seq<Item>, u: seq<Item>, a: seq<Item>)
    requires Sorted(b + (l + u) + a) && l != [] && l[|l| - 1].Entry? && u != [] && u[0].Entry?
    ensures var s := b + (l + [Sep(u[0].key)] + u) + a;
            && Sorted(s) && EntrySet(s) == EntrySet(b + (l + u) + a)
            && (forall x :: x in s ==> x in b + (l + u) + a || x == Sep(u[0].key))
            && u[0] in b + (l + u) + a
  {
    var sep := [Sep(u[0].key)];
    assert b + (l + u) + a == (b + l) + (u + a);
    assert b + (l + sep + u) + a == (b + l) + sep + (u + a);
    assert (b + l) + [] + (u + a) == (b + l) + (u + a);
    SortedParts(b + l, [], u + a);
    assert l[|l| - 1] in b + l && u[0] in [] + (u + a);
    assert l[|l| - 1] == (b + l)[|b + l| - 1] && u[0] == (u + a)[0];
    SepBefore(b + l, u + a);
  }

  lemma TopWhole(t: Tree, key: Key)
    ensures ProperCtx(Top) && Located(Top, key) && Whole(Top, t) == Items(t)
    ensures forall h: nat, lim: nat :: BalCtx(Top, h, lim)
  {
  }

  lemma GrownLeaf(t: Tree, key: Key, val: Val, at: nat, lim: nat, min: nat)
    requires t.Leaf? && Bal(t, 0, lim, min) && at <= |t.ks|
    ensures |InsertAt(t.ks, at, key)| == |InsertAt(t.vs, at, val)| == |t.ks| + 1
    ensures BalKids(Leaf(t.p, InsertAt(t.ks, at, key), InsertAt(t.vs, at, val)), 0, lim)
  {
  }

  // ---------------------------------------------------------------- separator repair

  /** The level that owns the separator just left of the hole: the first one, going up,
      at which the path does not take the leftmost child. */
  ghost function SepOwner(c: Ctx): Ctx {
    if c.Top? || c.ls != [] then c else SepOwner(c.up)
  }

  /** The path with that separator replaced. */
  ghost function SetSep(c: Ctx, key: Key): Ctx {
    if c.Top? then c
    else if c.ls != [] then if |c.ls| <= |c.ks| then c.(ks := c.ks[|c.ls| - 1 := key]) else c
    else c.(up := SetSep(c.up, key))
  }

  lemma {:induction false} SetSepKeeps(c: Ctx, key: Key, h: nat, lim: nat)
    ensures Depth(SetSep(c, key)) == Depth(c) && (SetSep(c, key).Top? <==> c.Top?)
    ensures BalCtx(c, h, lim) ==> BalCtx(SetSep(c, key), h, lim)
    decreases c
  {
    if c.Hole? && c.ls == [] {
      SetSepKeeps(c.up, key, h + 1, lim);
    }
  }

  lemma {:induction false} SetSepTwice(c: Ctx, k: Key, key: Key)
    ensures SetSep(SetSep(c, k), key) == SetSep(c, key)
    decreases c
  {
    if c.Hole? && c.ls == [] {
      SetSepTwice(c.up, k, key);
    }
  }

  /** Everything left of the hole but the separator next to it. */
  ghost function Trimmed(c: Ctx): seq<Item>
    requires ProperCtx(c)
  {
    if Before(c) == [] then [] else Before(c)[..|Before(c)| - 1]
  }

  lemma {:induction false} SetSepItems(c: Ctx, key: Key)
    requires ProperCtx(c)
    ensures ProperCtx(SetSep(c, key)) && After(SetSep(c, key)) == After(c)
    ensures Before(c) == [] ==> Before(SetSep(c, key)) == []
    ensures Before(c) != [] ==> Before(c)[|Before(c)| - 1].Sep? && Before(SetSep(c, key)) == Trimmed(c) + [Sep(key)]
    decreases c
  {
    if c.Hole? {
      if c.ls == [] {
        SetSepItems(c.up, key);
        assert ItemsL(c.ks[..0], []) == [];
        assert Before(c) == Before(c.up) && Before(SetSep(c, key)) == Before(SetSep(c.up, key));
      } else {
        var n := |c.ls|;
        var d := SetSep(c, key);
        LastSep(c.ks[..n], c.ls);
        LastSep(d.ks[..n], c.ls);
        assert d.ks[..n][..n - 1] == c.ks[..n][..n - 1] && d.ks[n..] == c.ks[n..];
        var l := ItemsL(c.ks[..n][..n - 1], c.ls[..n - 1]) + Items(c.ls[n - 1]);
        Assoc(Before(c.up), l, [Sep(c.ks[n - 1])]);
        Assoc(Before(c.up), l, [Sep(key)]);
        assert Before(c) == Before(c.up) + l + [Sep(c.ks[n - 1])];
        assert Before(d) == Before(c.up) + l + [Sep(key)];
        assert Trimmed(c) == Before(c.up) + l;
      }
    }
  }

  ghost function FirstKey(ks: seq<Key>): Key {
    if ks == [] then INVALID_KEY else ks[0]
  }

  ghost function Without(t: Tree, i: nat): Tree
    requires t.Leaf? && i < |t.ks| == |t.vs|
  {
    Leaf(t.p, RemoveAt(t.ks, i), RemoveAt(t.vs, i))
  }

  // ---------------------------------------------------------------- sibling pairs

  /** Two neighbouring kids `a` and `b` with the separator `k` between them hang below the
      node of `c1`, whose hole stands for both. The path to each of them: */
  ghost function CtxA(c1: Ctx, k: Key, b: Tree): Ctx
    requires c1.Hole? && |c1.ls| <= |c1.ks|
  {
    Hole(c1.p, InsertAt(c1.ks, |c1.ls|, k), c1.ls, [b] + c1.rs, c1.up)
  }

  ghost function CtxB(c1: Ctx, a: Tree, k: Key): Ctx
    requires c1.Hole? && |c1.ls| <= |c1.ks|
  {
    Hole(c1.p, InsertAt(c1.ks, |c1.ls|, k), c1.ls + [a], c1.rs, c1.up)
  }

  lemma SetSepB(c1: Ctx, a: Tree, k: Key, key: Key)
    requires c1.Hole? && |c1.ls| <= |c1.ks|
    ensures SetSep(CtxB(c1, a, k), key) == CtxB(c1, a, key)
  {
    assert InsertAt(c1.ks, |c1.ls|, k)[|c1.ls| := key] == InsertAt(c1.ks, |c1.ls|, key);
  }

  lemma SetSepA(c1: Ctx, k: Key, b: Tree, key: Key)
    requires c1.Hole? && |c1.ls| <= |c1.ks|
    ensures SetSep(c1, key).Hole? && |SetSep(c1, key).ls| <= |SetSep(c1, key).ks|
    ensures SetSep(CtxA(c1, k, b), key) == CtxA(SetSep(c1, key), k, b)
  {
    if c1.ls != [] {
      var i := |c1.ls|;
      assert InsertAt(c1.ks, i, k)[i - 1 := key] == InsertAt(c1.ks[i - 1 := key], i, k);
    }
  }

  /** The pair of the hole and its left sibling, and of the hole and its right sibling. */
  ghost function LeftPair(c: Ctx): Ctx
    requires c.Hole? && 0 < |c.ls| <= |c.ks|
  {
    Hole(c.p, RemoveAt(c.ks, |c.ls| - 1), c.ls[..|c.ls| - 1], c.rs, c.up)
  }

  ghost function RightPair(c: Ctx): Ctx
    requires c.Hole? && |c.ls| < |c.ks| && c.rs != []
  {
    Hole(c.p, RemoveAt(c.ks, |c.ls|), c.ls, c.rs[1..], c.up)
  }

  lemma LeftPairIs(c: Ctx)
    requires c.Hole? && 0 < |c.ls| <= |c.ks|
    ensures |LeftPair(c).ls| <= |LeftPair(c).ks| == |c.ks| - 1
    ensures CtxB(LeftPair(c), c.ls[|c.ls| - 1], c.ks[|c.ls| - 1]) == c
  {
    var i := |c.ls| - 1;
    assert InsertAt(RemoveAt(c.ks, i), i, c.ks[i]) == c.ks;
    assert c.ls[..i] + [c.ls[i]] == c.ls;
  }

  lemma RightPairIs(c: Ctx)
    requires c.Hole? && |c.ls| < |c.ks| && c.rs != []
    ensures |RightPair(c).ls| <= |RightPair(c).ks| == |c.ks| - 1
    ensures CtxA(RightPair(c), c.ks[|c.ls|], c.rs[0]) == c
  {
    var i := |c.ls|;
    assert InsertAt(RemoveAt(c.ks, i), i, c.ks[i]) == c.ks;
    assert [c.rs[0]] + c.rs[1..] == c.rs;
  }

  lemma ForkViews(c1: Ctx, a: Tree, k: Key, b: Tree)
    requires c1.Hole? && |c1.ls| <= |c1.ks|
    ensures var ca, cb := CtxA(c1, k, b), CtxB(c1, a, k);
            && ForkedTree(c1, a, k, b) == Inner(ca.p, ca.ks, ca.ls + [a] + ca.rs)
            && ForkedTree(c1, a, k, b) == Inner(cb.p, cb.ks, cb.ls + [b] + cb.rs)
            && Into(c1.up, ForkedTree(c1, a, k, b), |c1.ls|) == ca
            && Into(c1.up, ForkedTree(c1, a, k, b), |c1.ls| + 1) == cb
            && ForkedTree(c1, a, k, b).kids[|c1.ls|] == a && ForkedTree(c1, a, k, b).kids[|c1.ls| + 1] == b
  {
    var kids := c1.ls + [a, b] + c1.rs;
    assert kids == c1.ls + [a] + ([b] + c1.rs) && kids == c1.ls + [a] + [b] + c1.rs;
    assert kids[..|c1.ls|] == c1.ls && kids[|c1.ls| + 1..] == [b] + c1.rs;
    assert kids[..|c1.ls| + 1] == c1.ls + [a] && kids[|c1.ls| + 2..] == c1.rs;
  }

  lemma PairProper(c1: Ctx, a: Tree, k: Key, b: Tree)
    requires c1.Hole? && ProperCtx(c1)
    ensures ProperCtx(CtxA(c1, k, b)) && ProperCtx(CtxB(c1, a, k))
  {
  }

  lemma SetSepHole(c: Ctx, key: Key)
    requires c.Hole? && ProperCtx(c)
    ensures var d := SetSep(c, key); d.Hole? && d.p == c.p && |d.ls| == |c.ls| && |d.ks| == |c.ks| && ProperCtx(d)
  {
    SetSepItems(c, key);
  }

  lemma {:induction false} UpWhole(c: Ctx, t: Tree)
    requires c.Hole? && ProperCtx(c)
    ensures Whole(c, t) == Whole(c.up, Inner(c.p, c.ks, c.ls + [t] + c.rs))
  {
    var n := |c.ls|;
    ItemsAround(c.p, c.ks, c.ls, t, c.rs);
    Regroup(Before(c.up), ItemsL(c.ks[..n], c.ls), Items(t), ItemsR(c.ks[n..], c.rs), After(c.up));
  }

  lemma {:induction false} PairWhole(c1: Ctx, a: Tree, k: Key, b: Tree)
    requires c1.Hole? && ProperCtx(c1)
    ensures ProperCtx(CtxA(c1, k, b)) && Whole(CtxA(c1, k, b), a) == PairItems(c1, a, k, b)
    ensures ProperCtx(CtxB(c1, a, k)) && Whole(CtxB(c1, a, k), b) == PairItems(c1, a, k, b)
  {
    hide Whole, PairItems, Items;
    PairProper(c1, a, k, b);
    ForkViews(c1, a, k, b);
    UpWhole(CtxA(c1, k, b), a);
    UpWhole(CtxB(c1, a, k), b);
    ForkWhole(c1, a, k, b);
  }

  lemma ForkWhole(c1: Ctx, a: Tree, k: Key, b: Tree)
    requires c1.Hole? && ProperCtx(c1)
    ensures Whole(c1.up, ForkedTree(c1, a, k, b)) == PairItems(c1, a, k, b)
  {
    ForkedItems(c1, a, k, b);
  }

  /** The one node that two neighbours would make; for inner nodes `k` comes between. */
  ghost function Joined(a: Tree, k: Key, b: Tree): Tree
    requires a.Leaf? == b.Leaf?
  {
    if a.Leaf? then Leaf(a.p, a.ks + b.ks, a.vs + b.vs) else Inner(a.p, a.ks + [k] + b.ks, a.kids + b.kids)
  }

  /** For inner nodes, joining or cutting anywhere changes no item. */
  lemma {:induction false} JoinInner(c1: Ctx, a: Tree, k: Key, b: Tree)
    requires ProperCtx(c1) && a.Inner? && b.Inner? && |a.kids| == |a.ks| + 1 && |b.kids| == |b.ks| + 1
    ensures Whole(c1, Joined(a, k, b)) == PairItems(c1, a, k, b)
  {
    var ks, kids, n := a.ks + [k] + b.ks, a.kids + b.kids, |a.ks|;
    SplitItems(a.p, b.p, ks, kids, n);
    assert ks[..n] == a.ks && ks[n] == k && ks[n + 1..] == b.ks && kids[..n + 1] == a.kids && kids[n + 1..] == b.kids;
  }

  /** For leaves, the separator of an ordered pair can be dropped. */
  lemma {:induction false} JoinLeaves(c1: Ctx, a: Tree, k: Key, b: Tree)
    requires ProperCtx(c1) && a.Leaf? && b.Leaf? && |a.ks| == |a.vs| && Sorted(PairItems(c1, a, k, b))
    ensures Sorted(Whole(c1, Joined(a, k, b)))
      && EntrySet(Whole(c1, Joined(a, k, b))) == EntrySet(PairItems(c1, a, k, b))
    ensures forall x :: x in Whole(c1, Joined(a, k, b)) ==> x in PairItems(c1, a, k, b)
  {
    hide Before, After, Sorted, Entries;
    EntriesAppend(a.ks, a.vs, b.ks, b.vs);
    DropSep(Before(c1), Items(a), k, Items(b), After(c1));
  }

  lemma DropSep(b: seq<Item>, l: seq<Item>, k: Key, u: seq<Item>, a: seq<Item>)
    requires Sorted(b + (l + [Sep(k)] + u) + a)
    ensures var s, s' := b + (l + u) + a, b + (l + [Sep(k)] + u) + a;
            Sorted(s) && EntrySet(s) == EntrySet(s') && forall x :: x in s ==> x in s'
  {
    assert b + (l + u) + a == (b + l) + (u + a);
    assert b + (l + [Sep(k)] + u) + a == (b + l) + [Sep(k)] + (u + a);
    SortedRemove(b + l, Sep(k), u + a);
  }

  /** For leaves, an ordered node can be cut anywhere with the first key of the upper part
      as the separator. */
  lemma {:induction false} CutLeaf(c1: Ctx, t: Tree, l: Tree, u: Tree)
    requires ProperCtx(c1) && t.Leaf? && l.Leaf? && u.Leaf? && t.ks == l.ks + u.ks && t.vs == l.vs + u.vs
    requires |l.ks| == |l.vs| > 0 && |u.ks| == |u.vs| > 0 && Sorted(Whole(c1, t))
    ensures Sorted(PairItems(c1, l, u.ks[0], u)) && EntrySet(PairItems(c1, l, u.ks[0], u)) == EntrySet(Whole(c1, t))
    ensures ValidKeys(Whole(c1, t)) ==> ValidKeys(PairItems(c1, l, u.ks[0], u))
  {
    hide Before, After, Sorted, EntrySet, Entries;
    EntriesAppend(l.ks, l.vs, u.ks, u.vs);
    EntriesAt(l.ks, l.vs);
    EntriesAt(u.ks, u.vs);
    InsertSep(Before(c1), Items(l), Items(u), After(c1));
    assert Items(u)[0] == Entry(u.ks[0], u.vs[0]);
  }

  ghost predicate ValidKeys(s: seq<Item>) {
    forall x :: x in s ==> x.key < INVALID_KEY
  }

  /** The separator in front of a leaf may always be raised to the first key of the leaf. */
  lemma {:induction false} RaiseSep(c: Ctx, t: Tree)
    requires ProperCtx(c) && t.Leaf? && |t.ks| == |t.vs| > 0 && Sorted(Whole(c, t))
    ensures var d := SetSep(c, t.ks[0]);
            && ProperCtx(d) && Sorted(Whole(d, t)) && EntrySet(Whole(d, t)) == EntrySet(Whole(c, t))
            && (ValidKeys(Whole(c, t)) ==> ValidKeys(Whole(d, t)))
  {
    hide Before, After, Sorted, Entries, EntrySet, SetSep, ProperCtx;
    var key := t.ks[0];
    SetSepItems(c, key);
    EntriesAt(t.ks, t.vs);
    if Before(c) != [] {
      var n := |Before(c)| - 1;
      assert Before(c) == Trimmed(c) + [Before(c)[n]];
      RaiseItem(Trimmed(c), Before(c)[n].key, Items(t), After(c));
    }
  }

  lemma RaiseItem(p: seq<Item>, k: Key, l: seq<Item>, a: seq<Item>)
    requires l != [] && l[0].Entry? && Sorted(p + [Sep(k)] + l + a)
    ensures var s, s' := p + [Sep(k)] + l + a, p + [Sep(l[0].key)] + l + a;
            && Sorted(s') && EntrySet(s') == EntrySet(s) && (ValidKeys(s) ==> ValidKeys(s'))
  {
    var q, x := l + a, Sep(l[0].key);
    assert p + [Sep(k)] + l + a == p + [Sep(k)] + q && p + [x] + l + a == p + [x] + q;
    SortedParts(p, [Sep(k)], q);
    SortedRemove(p, Sep(k), q);
    assert q[0] == l[0] && l[0] in q && Sep(k) in [Sep(k)] + q && Sep(k) in p + [Sep(k)];
    assert Rank(Sep(k)) < Rank(l[0]);
    assert forall y :: y in p ==> Rank(y) < Rank(x);
    SortedSides(p + [Sep(k)], [], q);
    assert forall y :: y in q ==> Rank(x) < Rank(y);
    SortedInsert(p, x, q);
    assert l[0] in p + [Sep(k)] + q;
  }

  // ---------------------------------------------------------------- underfull nodes

  /** While a leaf is empty the separator in front of it is invalid. */
  ghost function Dented(c: Ctx, t: Tree): Ctx {
    if t.Leaf? && t.ks == [] then SetSep(c, INVALID_KEY) else c
  }

  ghost predicate Ordered(s: seq<Item>) {
    Sorted(s) && ValidKeys(s)
  }

  lemma {:induction false} DentedShape(c0: Ctx, t: Tree)
    ensures var c := Dented(c0, t);
            && (c.Hole? <==> c0.Hole?)
            && (c.Hole? ==> c.p == c0.p && c.ls == c0.ls && c.rs == c0.rs && |c.ks| == |c0.ks|)
  {
  }

  /** The hole and its left neighbour, in order but for the separator between them. */
  lemma {:induction false} LeftOrder(c0: Ctx, c: Ctx, t: Tree)
    requires ProperCtx(c0) && c == Dented(c0, t) && c.Hole? && c.ls != [] && Ordered(Whole(c0, t))
    requires var a := c.ls[|c.ls| - 1]; a.Leaf? == t.Leaf? && LocalShape(a) && LocalShape(t)
    ensures var a, k := c.ls[|c.ls| - 1], c.ks[|c.ls| - 1];
            && |c.ls| <= |c.ks| && ProperCtx(LeftPair(c)) && CtxB(LeftPair(c), a, k) == c
            && Ordered(Whole(LeftPair(c), Joined(a, k, t)))
            && EntrySet(Whole(LeftPair(c), Joined(a, k, t))) == EntrySet(Whole(c0, t))
  {
    var n := |c.ls| - 1;
    var a, k0 := c.ls[n], c0.ks[n];
    LeftPairIs(c);
    LeftPairIs(c0);
    assert LeftPair(c0) == LeftPair(c);
    var c1 := LeftPair(c);
    PairWhole(c1, a, k0, t);
    if t.Leaf? {
      JoinLeaves(c1, a, k0, t);
    } else {
      JoinInner(c1, a, k0, t);
    }
  }

  ghost predicate LocalShape(t: Tree) {
    if t.Leaf? then |t.vs| == |t.ks| else |t.kids| == |t.ks| + 1
  }

  /** The hole and its right neighbour; `c1` is their place in the undented path. */
  lemma {:induction false} RightOrder(c0: Ctx, c: Ctx, t: Tree)
    requires ProperCtx(c0) && c == Dented(c0, t) && c.Hole? && c.rs != [] && Ordered(Whole(c0, t))
    requires c.rs[0].Leaf? == t.Leaf? && LocalShape(c.rs[0]) && LocalShape(t)
    ensures var b, k := c.rs[0], c.ks[|c.ls|];
            && |c.ls| < |c0.ks| == |c.ks| && ProperCtx(RightPair(c0)) && RightPair(c) == Dented(RightPair(c0), t)
            && CtxA(RightPair(c), k, b) == c
            && Ordered(Whole(RightPair(c0), Joined(t, k, b)))
            && EntrySet(Whole(RightPair(c0), Joined(t, k, b))) == EntrySet(Whole(c0, t))
  {
    var i := |c.ls|;
    var b, k := c.rs[0], c.ks[i];
    RightPairIs(c);
    RightPairIs(c0);
    RightDented(c0, t);
    var c1 := RightPair(c0);
    PairWhole(c1, t, k, b);
    if t.Leaf? {
      JoinLeaves(c1, t, k, b);
    } else {
      JoinInner(c1, t, k, b);
    }
  }

  lemma RightDented(c0: Ctx, t: Tree)
    requires c0.Hole? && |c0.ls| < |c0.ks| && c0.rs != []
    ensures var c := Dented(c0, t);
            && c.Hole? && |c.ls| < |c.ks| && c.rs != [] && c.ks[|c.ls|] == c0.ks[|c.ls|]
            && RightPair(c) == Dented(RightPair(c0), t)
  {
    var i := |c0.ls|;
    if c0.ls != [] {
      assert RemoveAt(c0.ks[i - 1 := INVALID_KEY], i) == RemoveAt(c0.ks, i)[i - 1 := INVALID_KEY];
    }
  }

  lemma {:induction false} BalPairB(c: Ctx, h: nat, lim: nat, a: Tree, k: Key)
    requires BalCtx(c, h, lim) && c.Hole? && 0 < |c.ls| <= |c.ks| && Bal(a, h, lim, lim / 2)
    ensures BalCtx(CtxB(LeftPair(c), a, k), h, lim)
  {
    hide Bal;
    var d := CtxB(LeftPair(c), a, k);
    assert |d.ks| == |c.ks| && |d.ls| == |c.ls|;
    assert forall i :: 0 <= i < |d.ls| ==> d.ls[i] == if i < |c.ls| - 1 then c.ls[i] else a;
  }

  lemma {:induction false} BalPairA(c: Ctx, h: nat, lim: nat, k: Key, b: Tree)
    requires BalCtx(c, h, lim) && c.Hole? && |c.ls| < |c.ks| && c.rs != [] && Bal(b, h, lim, lim / 2)
    ensures BalCtx(CtxA(RightPair(c), k, b), h, lim)
  {
    hide Bal;
    var d := CtxA(RightPair(c), k, b);
    assert |d.ks| == |c.ks| && |d.rs| == |c.rs|;
    assert forall i :: 0 <= i < |d.rs| ==> d.rs[i] == if i == 0 then b else c.rs[i];
  }

  /** An entry moved over from the left leaf. */
  lemma {:induction false} LeftLeafStolen(c0: Ctx, c: Ctx, t: Tree, h: nat, lim: nat)
    requires ProperCtx(c0) && c == Dented(c0, t) && c.Hole? && c.ls != [] && Ordered(Whole(c0, t)) && t.Leaf?
    requires BalCtx(c, h, lim) && BalKids(t, h, lim) && |t.ks| < lim / 2 < |c.ls[|c.ls| - 1].ks| && lim >= 2
    ensures var a, n := c.ls[|c.ls| - 1], |c.ls[|c.ls| - 1].ks| - 1;
            && a.Leaf? && |a.vs| == |a.ks| == n + 1 && 0 < n
            && var c', t' := CtxB(LeftPair(c), Without(a, n), a.ks[n]), Leaf(t.p, [a.ks[n]] + t.ks, [a.vs[n]] + t.vs);
            && ProperCtx(c') && Ordered(Whole(c', t')) && EntrySet(Whole(c', t')) == EntrySet(Whole(c0, t))
            && BalCtx(c', h, lim) && BalKids(t', h, lim)
  {
    hide Whole, Sorted, EntrySet, ValidKeys, Items, Ordered, ProperCtx;
    var a := c.ls[|c.ls| - 1];
    assert Bal(a, h, lim, lim / 2);
    LeftLeafCut(c0, c, t);
    BalPairB(c, h, lim, Without(a, |a.ks| - 1), a.ks[|a.ks| - 1]);
  }

  lemma {:induction false} LeftLeafCut(c0: Ctx, c: Ctx, t: Tree)
    requires ProperCtx(c0) && c == Dented(c0, t) && c.Hole? && c.ls != [] && Ordered(Whole(c0, t)) && t.Leaf?
    requires |t.vs| == |t.ks| && var a := c.ls[|c.ls| - 1]; a.Leaf? && |a.vs| == |a.ks| >= 2
    ensures var a, n := c.ls[|c.ls| - 1], |c.ls[|c.ls| - 1].ks| - 1;
            var c', t' := CtxB(LeftPair(c), Without(a, n), a.ks[n]), Leaf(t.p, [a.ks[n]] + t.ks, [a.vs[n]] + t.vs);
            ProperCtx(c') && Ordered(Whole(c', t')) && EntrySet(Whole(c', t')) == EntrySet(Whole(c0, t))
  {
    hide Whole, Sorted, EntrySet, ValidKeys, Items;
    var a := c.ls[|c.ls| - 1];
    var n := |a.ks| - 1;
    var a', b' := Without(a, n), Leaf(t.p, [a.ks[n]] + t.ks, [a.vs[n]] + t.vs);
    var c1 := LeftPair(c);
    LeftOrder(c0, c, t);
    assert a.ks + t.ks == a'.ks + b'.ks && a.vs + t.vs == a'.vs + b'.vs;
    CutLeaf(c1, Joined(a, c.ks[|c.ls| - 1], t), a', b');
    PairWhole(c1, a', a.ks[n], b');
  }

  /** An entry moved over from the right leaf. */
  lemma {:induction false} RightLeafStolen(c0: Ctx, c: Ctx, t: Tree, h: nat, lim: nat)
    requires ProperCtx(c0) && c == Dented(c0, t) && c.Hole? && c.rs != [] && Ordered(Whole(c0, t)) && t.Leaf?
    requires BalCtx(c, h, lim) && BalKids(t, h, lim) && |t.ks| < lim / 2 < |c.rs[0].ks| && lim >= 2
    ensures |c.ls| < |c.ks| && c.rs[0].Leaf? && |c.rs[0].vs| == |c.rs[0].ks| >= 2
    ensures var b := c.rs[0];
            var c1 := if t.ks == [] then SetSep(RightPair(c), b.ks[0]) else RightPair(c);
            && c1.Hole? && |c1.ls| <= |c1.ks|
            && var c', t' := CtxA(c1, FirstKey(RemoveAt(b.ks, 0)), Without(b, 0)),
              Leaf(t.p, t.ks + [b.ks[0]], t.vs + [b.vs[0]]);
            && ProperCtx(c') && Ordered(Whole(c', t')) && EntrySet(Whole(c', t')) == EntrySet(Whole(c0, t))
            && BalCtx(c', h, lim) && BalKids(t', h, lim)
  {
    hide Whole, Sorted, EntrySet, ValidKeys, Items;
    var b := c.rs[0];
    assert Bal(b, h, lim, lim / 2);
    RightOrder(c0, c, t);
    var j := Joined(t, c.ks[|c.ls|], b);
    var c10 := RightPair(c0);
    var a', b', k' := Leaf(t.p, t.ks + [b.ks[0]], t.vs + [b.vs[0]]), Without(b, 0), b.ks[1];
    assert j.ks == a'.ks + b'.ks && j.vs == a'.vs + b'.vs && b'.ks[0] == k';
    BalPairA(c, h, lim, k', b');
    var c1 := RightPair(c);
    if t.ks == [] {
      RaiseSep(c10, j);
      SetSepTwice(c10, INVALID_KEY, b.ks[0]);
      SetSepHole(c10, b.ks[0]);
      c1 := SetSep(c10, b.ks[0]);
      assert j.ks[0] == b.ks[0];
      SetSepA(RightPair(c), k', b', b.ks[0]);
      SetSepKeeps(CtxA(RightPair(c), k', b'), b.ks[0], h, lim);
    }
    CutLeaf(c1, j, a', b');
    PairWhole(c1, a', k', b');
  }

  /** A kid moved over from the left inner node, keys rotating through the node above. */
  lemma {:induction false} LeftInnerStolen(c: Ctx, t: Tree, h: nat, lim: nat)
    requires ProperCtx(c) && c.Hole? && c.ls != [] && Ordered(Whole(c, t)) && t.Inner?
    requires BalCtx(c, h, lim) && BalKids(t, h, lim) && |t.ks| < lim / 2 < |c.ls[|c.ls| - 1].ks| && lim >= 2
    ensures var a, k, n := c.ls[|c.ls| - 1], c.ks[|c.ls| - 1], |c.ls[|c.ls| - 1].ks| - 1;
            && a.Inner? && |a.kids| == |a.ks| + 1 == n + 2 && |LeftPair(c).ls| <= |LeftPair(c).ks| < lim
            && var c', t' := CtxB(LeftPair(c), Inner(a.p, a.ks[..n], a.kids[..n + 1]), a.ks[n]),
              Inner(t.p, [k] + t.ks, [a.kids[n + 1]] + t.kids);
            && ProperCtx(c') && Whole(c', t') == Whole(c, t) && BalCtx(c', h, lim) && BalKids(t', h, lim)
  {
    hide Whole, Sorted, ValidKeys, Items;
    var a, k := c.ls[|c.ls| - 1], c.ks[|c.ls| - 1];
    assert Bal(a, h, lim, lim / 2);
    var n, c1 := |a.ks| - 1, LeftPair(c);
    var a', b' := Inner(a.p, a.ks[..n], a.kids[..n + 1]), Inner(t.p, [k] + t.ks, [a.kids[n + 1]] + t.kids);
    LeftPairIs(c);
    PairWhole(c1, a, k, t);
    JoinInner(c1, a, k, t);
    assert a.ks + [k] + t.ks == a'.ks + [a.ks[n]] + b'.ks && a.kids + t.kids == a'.kids + b'.kids;
    JoinInner(c1, a', a.ks[n], b');
    PairWhole(c1, a', a.ks[n], b');
    BalPairB(c, h, lim, a', a.ks[n]);
  }

  lemma {:induction false} RightInnerStolen(c: Ctx, t: Tree, h: nat, lim: nat)
    requires ProperCtx(c) && c.Hole? && c.rs != [] && Ordered(Whole(c, t)) && t.Inner?
    requires BalCtx(c, h, lim) && BalKids(t, h, lim) && |t.ks| < lim / 2 < |c.rs[0].ks| && lim >= 2
    ensures var b := c.rs[0]; b.Inner? && |b.kids| == |b.ks| + 1 >= 3 && |c.ls| < |c.ks|
    ensures |RightPair(c).ls| <= |RightPair(c).ks| < lim
    ensures var b, k := c.rs[0], c.ks[|c.ls|];
            var c', t' := CtxA(RightPair(c), b.ks[0], Inner(b.p, b.ks[1..], b.kids[1..])),
              Inner(t.p, t.ks + [k], t.kids + [b.kids[0]]);
            && ProperCtx(c') && Whole(c', t') == Whole(c, t) && BalCtx(c', h, lim) && BalKids(t', h, lim)
  {
    hide Whole, Sorted, ValidKeys, Items;
    var b, k, c1 := c.rs[0], c.ks[|c.ls|], RightPair(c);
    assert Bal(b, h, lim, lim / 2);
    var a', b' := Inner(t.p, t.ks + [k], t.kids + [b.kids[0]]), Inner(b.p, b.ks[1..], b.kids[1..]);
    RightPairIs(c);
    PairWhole(c1, t, k, b);
    JoinInner(c1, t, k, b);
    assert t.ks + [k] + b.ks == a'.ks + [b.ks[0]] + b'.ks && t.kids + b.kids == a'.kids + b'.kids;
    JoinInner(c1, a', b.ks[0], b');
    PairWhole(c1, a', b.ks[0], b');
    BalPairA(c, h, lim, b.ks[0], b');
  }

  /** The node above after a pair in it became one node. */
  ghost function Above(c1: Ctx, j: Tree): Tree
    requires c1.Hole?
  {
    Inner(c1.p, c1.ks, c1.ls + [j] + c1.rs)
  }

  lemma {:induction false} MergedUp(c1: Ctx, j: Tree, h: nat, lim: nat)
    requires c1.Hole? && ProperCtx(c1) && AllBal(c1.ls, h, lim) && AllBal(c1.rs, h, lim) && Bal(j, h, lim, lim / 2)
    ensures Whole(c1.up, Above(c1, j)) == Whole(c1, j) && BalKids(Above(c1, j), h + 1, lim)
  {
    hide Whole, Items;
    UpWhole(c1, j);
    var kids := c1.ls + [j] + c1.rs;
    forall i | 0 <= i < |kids| ensures Bal(kids[i], h, lim, lim / 2) {
      if i < |c1.ls| {
        assert kids[i] == c1.ls[i];
      } else if i > |c1.ls| {
        assert kids[i] == c1.rs[i - |c1.ls| - 1];
      }
    }
  }

  lemma JoinedBal(a: Tree, k: Key, b: Tree, h: nat, lim: nat)
    requires a.Leaf? == b.Leaf? && BalKids(a, h, lim) && BalKids(b, h, lim)
    requires lim / 2 <= |a.ks| + |b.ks| + (if a.Leaf? then 0 else 1) <= lim
    ensures Bal(Joined(a, k, b), h, lim, lim / 2)
  {
  }

  lemma {:induction false} LeftMerged(c0: Ctx, c: Ctx, t: Tree, h: nat, lim: nat)
    requires ProperCtx(c0) && c == Dented(c0, t) && c.Hole? && c.ls != [] && Ordered(Whole(c0, t))
    requires BalCtx(c, h, lim) && BalKids(t, h, lim) && lim >= 2
    requires lim / 2 <= |c.ls[|c.ls| - 1].ks| + |t.ks| + (if t.Leaf? then 0 else 1) <= lim
    ensures var a, k := c.ls[|c.ls| - 1], c.ks[|c.ls| - 1];
            && a.Leaf? == t.Leaf? && LocalShape(a) && a.ks != [] && BalKids(a, h, lim)
            && var c1 := LeftPair(c);
            && ProperCtx(c1) && |c1.ls| <= |c1.ks| == |c.ks| - 1 && CtxB(c1, a, k) == c
            && var t' := Above(c1, Joined(a, k, t));
            && ProperCtx(c1.up) && Ordered(Whole(c1.up, t')) && EntrySet(Whole(c1.up, t')) == EntrySet(Whole(c0, t))
            && BalCtx(c1.up, h + 1, lim) && BalKids(t', h + 1, lim)
  {
    hide Whole, Sorted, EntrySet, ValidKeys, Items;
    var a, k := c.ls[|c.ls| - 1], c.ks[|c.ls| - 1];
    assert Bal(a, h, lim, lim / 2);
    LeftOrder(c0, c, t);
    JoinedBal(a, k, t, h, lim);
    MergedUp(LeftPair(c), Joined(a, k, t), h, lim);
  }

  lemma {:induction false} RightMerged(c0: Ctx, c: Ctx, t: Tree, h: nat, lim: nat)
    requires ProperCtx(c0) && c == Dented(c0, t) && c.Hole? && c.rs != [] && Ordered(Whole(c0, t))
    requires BalCtx(c, h, lim) && BalKids(t, h, lim) && lim >= 2
    requires lim / 2 <= |c.rs[0].ks| + |t.ks| + (if t.Leaf? then 0 else 1) <= lim
    ensures var b := c.rs[0]; b.Leaf? == t.Leaf? && LocalShape(b) && b.ks != [] && BalKids(b, h, lim) && |c.ls| < |c.ks|
    ensures var b, k := c.rs[0], c.ks[|c.ls|];
            && ProperCtx(RightPair(c)) && |RightPair(c).ls| <= |RightPair(c).ks| == |c.ks| - 1
              && CtxA(RightPair(c), k, b) == c
            && var c1 := if t.Leaf? && t.ks == [] then SetSep(RightPair(c), b.ks[0]) else RightPair(c);
            && c1.Hole? && |c1.ks| == |c.ks| - 1 && ProperCtx(c1.up)
            && var t' := Above(c1, Joined(t, k, b));
            && Ordered(Whole(c1.up, t')) && EntrySet(Whole(c1.up, t')) == EntrySet(Whole(c0, t))
            && BalCtx(c1.up, h + 1, lim) && BalKids(t', h + 1, lim)
  {
    hide Whole, Sorted, EntrySet, ValidKeys, Items;
    var b, k := c.rs[0], c.ks[|c.ls|];
    assert Bal(b, h, lim, lim / 2);
    BalCtxProper(c, h, lim);
    RightOrder(c0, c, t);
    RightPairIs(c);
    var c10, j := RightPair(c0), Joined(t, k, b);
    JoinedBal(t, k, b, h, lim);
    if t.Leaf? && t.ks == [] {
      RaiseSep(c10, j);
      SetSepTwice(c10, INVALID_KEY, b.ks[0]);
      SetSepHole(RightPair(c), b.ks[0]);
      SetSepSides(RightPair(c), b.ks[0], h, lim);
      assert j.ks[0] == b.ks[0];
      MergedUp(SetSep(RightPair(c), b.ks[0]), j, h, lim);
    } else {
      MergedUp(c10, j, h, lim);
    }
  }

  lemma {:induction false} SetSepSides(c: Ctx, key: Key, h: nat, lim: nat)
    requires c.Hole? && BalCtx(c.up, h + 1, lim)
    ensures var d := SetSep(c, key); d.Hole? && d.ls == c.ls && d.rs == c.rs && BalCtx(d.up, h + 1, lim)
  {
    SetSepKeeps(c.up, key, h + 1, lim);
  }

  lemma {:induction false} EntriesRemove(ks: seq<Key>, vs: seq<Val>, i: nat)
    requires i < |ks| == |vs|
    ensures Entries(ks, vs) == Entries(ks[..i], vs[..i]) + [Entry(ks[i], vs[i])] + Entries(ks[i + 1..], vs[i + 1..])
    ensures Entries(RemoveAt(ks, i), RemoveAt(vs, i)) == Entries(ks[..i], vs[..i]) + Entries(ks[i + 1..], vs[i + 1..])
  {
    var ks', vs' := RemoveAt(ks, i), RemoveAt(vs, i);
    EntriesInsert(ks', vs', ks[i], vs[i], i);
    assert ks'[..i] == ks[..i] && vs'[..i] == vs[..i] && ks'[i..] == ks[i + 1..] && vs'[i..] == vs[i + 1..];
    assert InsertAt(ks', i, ks[i]) == ks && InsertAt(vs', i, vs[i]) == vs;
  }

  lemma RemoveItem(b: seq<Item>, l: seq<Item>, x: Item, u: seq<Item>, a: seq<Item>)
    requires Ordered(b + (l + [x] + u) + a)
    ensures Ordered(b + (l + u) + a)
    ensures EntrySet(b + (l + u) + a) == EntrySet(b + (l + [x] + u) + a) - {x}
  {
    var p, q := b + l, u + a;
    assert b + (l + u) + a == p + q;
    assert b + (l + [x] + u) + a == p + [x] + q;
    SortedRemove(p, x, q);
    var s := p + [x] + q;
    forall y | y in p + q ensures y != x && y in s {
      if y in p {
        var j :| 0 <= j < |p| && p[j] == y;
        assert s[j] == y && s[|p|] == x;
      } else {
        var j :| 0 <= j < |q| && q[j] == y;
        assert s[|p| + 1 + j] == y && s[|p|] == x;
      }
    }
  }

  /** Removing an entry from a leaf, with the separator in front of it repaired or, when the
      leaf is left empty, dented. */
  lemma {:induction false} ShrunkLeaf(c: Ctx, t: Tree, i: nat) returns (c0: Ctx)
    requires ProperCtx(c) && t.Leaf? && i < |t.ks| == |t.vs| && Ordered(Whole(c, t))
    ensures ProperCtx(c0)
    ensures (if i == 0 then SetSep(c, FirstKey(RemoveAt(t.ks, i))) else c) == Dented(c0, Without(t, i))
    ensures Ordered(Whole(c0, Without(t, i)))
    ensures EntrySet(Whole(c0, Without(t, i))) == EntrySet(Whole(c, t)) - {Entry(t.ks[i], t.vs[i])}
    ensures Entry(t.ks[i], t.vs[i]) in Whole(c, t)
  {
    hide Before, After, Sorted, EntrySet, Entries, ValidKeys, ProperCtx, SetSep;
    var ks, vs, t' := t.ks, t.vs, Without(t, i);
    EntriesRemove(ks, vs, i);
    RemoveItem(Before(c), Entries(ks[..i], vs[..i]), Entry(ks[i], vs[i]), Entries(ks[i + 1..], vs[i + 1..]), After(c));
    if i == 0 && t'.ks != [] {
      RaiseSep(c, t');
      c0 := SetSep(c, t'.ks[0]);
    } else {
      c0 := c;
    }
  }

  lemma ShrunkBal(t: Tree, i: nat, lim: nat)
    requires t.Leaf? && BalKids(t, 0, lim) && i < |t.ks| == |t.vs|
    ensures BalKids(Without(t, i), 0, lim) && |Without(t, i).ks| == |t.ks| - 1
  {
  }

  // ---------------------------------------------------------------- a key already present

  /** `key` is the greatest key of its leaf: in order, a separator or nothing follows it. */
  ghost predicate EndsLeaf(s: seq<Item>, key: Key) {
    exists i :: 0 <= i < |s| && s[i].Entry? && s[i].key == key && (i + 1 < |s| ==> s[i + 1].Sep?)
  }

  lemma {:induction false} AfterSep(c: Ctx)
    requires ProperCtx(c)
    ensures After(c) != [] ==> After(c)[0].Sep?
    decreases c
  {
    if c.Hole? {
      AfterSep(c.up);
      assert c.rs == [] ==> ItemsR(c.ks[|c.ls|..], c.rs) == [];
    }
  }

  lemma {:induction false} EndsLeafAt(c: Ctx, t: Tree, at: nat)
    requires ProperCtx(c) && t.Leaf? && |t.vs| == |t.ks| && at < |t.ks| && Sorted(Whole(c, t))
    ensures EndsLeaf(Whole(c, t), t.ks[at]) <==> at + 1 == |t.ks|
  {
    hide Before, After, ProperCtx;
    var s, b, n := Whole(c, t), |Before(c)|, |t.ks|;
    AfterSep(c);
    EntriesAt(t.ks, t.vs);
    var x := s[b + at];
    assert x == Entry(t.ks[at], t.vs[at]);
    assert b + at + 1 < |s| ==> (s[b + at + 1].Sep? <==> at + 1 == n);
    forall i | 0 <= i < |s| && s[i].Entry? && s[i].key == t.ks[at] ensures i == b + at {
      assert Rank(s[i]) == Rank(x);
    }
  }
}
