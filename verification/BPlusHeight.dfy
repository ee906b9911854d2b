/** How the height of a balanced B+ tree is tied to the number of keys it holds, which is what
    bounds the nodes a search visits. */
module BPlusHeight {
  import opened BPlusModel

  function Pow(b: nat, e: nat): nat {
    if e == 0 then 1 else b * Pow(b, e - 1)
  }

  ghost function Count(s: seq<Item>): nat {
    if s == [] then 0 else Count(s[..|s| - 1]) + if s[|s| - 1].Entry? then 1 else 0
  }

  lemma {:induction false} CountAppend(s: seq<Item>, t: seq<Item>)
    ensures Count(s + t) == Count(s) + Count(t)
    decreases |t|
  {
    if t == [] {
      assert s + t == s;
    } else {
      CountAppend(s, t[..|t| - 1]);
      assert (s + t)[..|s + t| - 1] == s + t[..|t| - 1];
    }
  }

  lemma Present(s: seq<Item>, k: Key)
    requires Sorted(s)
    ensures k in Contents(s) ==> Entry(k, Contents(s)[k]) in s
  {
    ContentsOf(s);
  }

  lemma NotYet(s: seq<Item>)
    requires Sorted(s) && s != [] && s[|s| - 1].Entry?
    ensures s[|s| - 1].key !in Contents(s[..|s| - 1])
  {
    var r, k := s[..|s| - 1], s[|s| - 1].key;
    Present(r, k);
    assert forall i :: 0 <= i < |r| ==> r[i] == s[i] && Rank(s[i]) < Rank(s[|s| - 1]);
    assert forall v :: Entry(k, v) !in r;
  }

  /** In an ordered sequence no key is counted twice. */
  lemma {:induction false} CountContents(s: seq<Item>)
    requires Sorted(s)
    ensures |Contents(s)| == Count(s)
    decreases |s|
  {
    if s != [] {
      var r := s[..|s| - 1];
      CountContents(r);
      var x := s[|s| - 1];
      if x.Entry? {
        var m := Contents(r);
        assert x.key !in m by {
          NotYet(s);
        }
        assert m[x.key := x.val].Keys == m.Keys + {x.key};
        assert |m.Keys| == |m| && |m[x.key := x.val].Keys| == |m[x.key := x.val]|;
      }
    }
  }

  lemma {:induction false} CountEntries(ks: seq<Key>, vs: seq<Val>)
    requires |ks| == |vs|
    ensures Count(Entries(ks, vs)) == |ks|
    decreases |ks|
  {
    if ks != [] {
      CountEntries(ks[1..], vs[1..]);
      CountAppend([Entry(ks[0], vs[0])], Entries(ks[1..], vs[1..]));
    }
  }

  /** Kids that each hold between `lo` and `hi` entries. */
  lemma {:induction false} CountKids(ks: seq<Key>, kids: seq<Tree>, lo: nat, hi: nat)
    requires |ks| == |kids| && forall i :: 0 <= i < |kids| ==> lo <= Count(Items(kids[i])) <= hi
    ensures |kids| * lo <= Count(ItemsR(ks, kids)) <= |kids| * hi
    decreases |kids|
  {
    if kids != [] {
      CountKids(ks[1..], kids[1..], lo, hi);
      CountAppend([Sep(ks[0])], Items(kids[0]));
      CountAppend([Sep(ks[0])] + Items(kids[0]), ItemsR(ks[1..], kids[1..]));
      assert Count([Sep(ks[0])]) == 0;
      Distribute(|kids| - 1, lo);
      Distribute(|kids| - 1, hi);
    }
  }

  lemma Distribute(n: nat, x: nat)
    ensures (n + 1) * x == n * x + x
  {
  }

  lemma Monotone(a: nat, b: nat, x: nat)
    requires a <= b
    ensures a * x <= b * x
  {
  }

  lemma CountInner(t: Tree, min: nat, lim: nat, lo: nat, hi: nat)
    requires t.Inner? && min <= |t.ks| <= lim && |t.kids| == |t.ks| + 1
    requires forall i :: 0 <= i < |t.kids| ==> lo <= Count(Items(t.kids[i])) <= hi
    ensures (min + 1) * lo <= Count(Items(t)) <= (lim + 1) * hi
  {
    CountKids(t.ks, t.kids[1..], lo, hi);
    CountAppend(Items(t.kids[0]), ItemsR(t.ks, t.kids[1..]));
    Distribute(|t.ks|, lo);
    Distribute(|t.ks|, hi);
    Monotone(min + 1, |t.kids|, lo);
    Monotone(|t.kids|, lim + 1, hi);
  }

  /** Entries below a node of height `h` in which every node holds `k` keys. */
  function Full(k: nat, h: nat): nat {
    k * Pow(k + 1, h)
  }

  lemma FullStep(k: nat, h: nat)
    ensures Full(k, h + 1) == (k + 1) * Full(k, h)
  {
    var p := Pow(k + 1, h);
    assert k * ((k + 1) * p) == (k * (k + 1)) * p == ((k + 1) * k) * p == (k + 1) * (k * p);
  }

  /** A node that holds at least `min` keys, with every node below it at least half full. */
  lemma {:induction false} CountBal(t: Tree, h: nat, lim: nat, min: nat)
    requires Bal(t, h, lim, min)
    ensures Count(Items(t)) <= Full(lim, h)
    ensures Count(Items(t)) >= if h == 0 then min else (min + 1) * Full(lim / 2, h - 1)
    decreases h
  {
    hide Full, Items, Count;
    if t.Leaf? {
      CountLeaf(t, lim);
    } else {
      var lo, hi := Full(lim / 2, h - 1), Full(lim, h - 1);
      forall i | 0 <= i < |t.kids| ensures lo <= Count(Items(t.kids[i])) <= hi {
        CountBal(t.kids[i], h - 1, lim, lim / 2);
        if h > 1 {
          FullStep(lim / 2, h - 2);
        } else {
          FullAt0(lim / 2);
        }
      }
      CountInner(t, min, lim, lo, hi);
      FullStep(lim, h - 1);
    }
  }

  lemma CountLeaf(t: Tree, lim: nat)
    requires t.Leaf? && |t.vs| == |t.ks| <= lim
    ensures |t.ks| == Count(Items(t)) <= Full(lim, 0)
  {
    CountEntries(t.ks, t.vs);
  }

  lemma FullAt0(k: nat)
    ensures Full(k, 0) == k
  {
  }

  /** The number of keys decides the height to within a constant factor. */
  lemma HeightBounds(t: Tree, h: nat, lim: nat)
    requires Bal(t, h, lim, RootMin(t)) && Sorted(Items(t))
    ensures |Contents(Items(t))| <= Full(lim, h)
    ensures h > 0 ==> |Contents(Items(t))| >= 2 * Full(lim / 2, h - 1)
  {
    CountBal(t, h, lim, RootMin(t));
    CountContents(Items(t));
  }
}
