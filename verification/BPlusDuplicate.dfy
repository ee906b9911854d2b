/** A run in which an addition of a key that is already there loses another key. */
module BPlusDuplicate {
  import opened BPlusModel
  import opened BPlusSearch
  import opened BPlusHeld
  import opened BPlusHeight
  import opened BPlus

  lemma LeafSize(t: Tree)
    requires t.Leaf? && |t.vs| == |t.ks| && Sorted(Items(t))
    ensures |Contents(Items(t))| == |t.ks|
  {
    CountContents(Items(t));
    CountEntries(t.ks, t.vs);
  }

  /** A leaf with the keys 1, 2 and 3 has them in this order. */
  lemma ThreeKeys(t: Tree)
    requires t.Leaf? && |t.vs| == |t.ks| && Sorted(Items(t)) && Contents(Items(t)).Keys == {1, 2, 3}
    ensures Drops(Items(t), 1, 3) && !EndsLeaf(Items(t), 1)
  {
    var s := Items(t);
    var m := Contents(s);
    assert |m| == |m.Keys| == 3;
    LeafSize(t);
    EntriesAt(t.ks, t.vs);
    ContentsOf(s);
    forall i | 0 <= i < 3 ensures 1 <= s[i].key <= 3 {
      assert Entry(s[i].key, s[i].val) in s;
      assert s[i].key in m.Keys;
    }
    assert s[0].key < s[1].key < s[2].key by {
      assert Rank(s[0]) < Rank(s[1]) < Rank(s[2]);
    }
    assert DropsAt(s, 0, 2, 1, 3);
  }

  lemma RootLeaf(t: BPlusTree)
    requires t.Valid() && t.tree.Leaf?
    ensures |t.Map()| == |t.tree.ks|
    ensures t.Map().Keys == {1, 2, 3} ==> Drops(Items(t.tree), 1, 3) && !EndsLeaf(Items(t.tree), 1)
  {
    LeafSize(t.tree);
    if t.Map().Keys == {1, 2, 3} {
      ThreeKeys(t.tree);
    }
  }

  /** With limit 3 and the keys 1, 2 and 3, a second addition of 1 makes 3 disappear. */
  method Lose() returns (before: bool, after: bool)
    ensures before && !after
  {
    hide BPlusTree.Valid, BPlusTree.Map, BPlusTree.Searchable, BPlusTree.Visible, Drops, EndsLeaf, Items, Descends,
         Held;
    var t := new BPlusTree(3);
    RootLeaf(t);
    var err := t.Add(1, 10);
    RootLeaf(t);
    err := t.Add(2, 20);
    RootLeaf(t);
    err := t.Add(3, 30);
    assert t.Map() == map[1 := 10, 2 := 20, 3 := 30];
    assert t.Map().Keys == {1, 2, 3};
    RootLeaf(t);
    t.ValidSearchable(3);
    var val;
    before, val := t.Search(3);
    err := t.Add(1, 11);
    assert t.Visible(3) == Missing;
    after, val := t.Search(3);
  }
}
