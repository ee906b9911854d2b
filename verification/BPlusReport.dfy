/** When `bplus_tree_del` reports an error for a removal that it has carried out.  The answer
    depends only on how many keys the nodes on the way to the leaf and their neighbours have,
    so it is written over those numbers. */
module BPlusReport {
  import opened BPlusModel

  const ABSENT := -1

  /** One node above the hole: its keys, and those of the neighbours of the node in the hole. */
  datatype Level = Level(left: int, keys: int, right: int)

  ghost function Size(ts: seq<Tree>, i: int): int {
    if 0 <= i < |ts| then |ts[i].ks| else ABSENT
  }

  /** The nodes above the hole, the lowest first. */
  ghost function Levels(c: Ctx): seq<Level> {
    if c.Top? then [] else [Level(Size(c.ls, |c.ls| - 1), |c.ks|, Size(c.rs, 0))] + Levels(c.up)
  }

  predicate Fits(size: int, n: int, leaf: bool, lim: nat) {
    size != ABSENT && size + n + (if leaf then 0 else 1) <= lim
  }

  /** The merge tests, for a node of `n` keys that has or has not taken a key from the right
      just before. */
  ghost predicate Refused(w: seq<Level>, n: int, took: bool, leaf: bool, lim: nat)
    decreases |w|, 0
  {
    && w != []
    && if Fits(w[0].left, n, leaf, lim) || Fits(w[0].right, n, leaf, lim)
       then Reports(w[1..], w[0].keys - 1, false, lim) else took
  }

  /** A whole call of `bplus_node_rebalance`, for a node of `n` keys below the levels `w`. */
  ghost predicate Reports(w: seq<Level>, n: int, leaf: bool, lim: nat)
    decreases |w|, 1
  {
    && w != [] && n < lim / 2 && w[0].left <= lim / 2
    && if w[0].right > lim / 2 then Refused(AfterTaking(w), n + 1, true, leaf, lim) else Refused(w, n, false, leaf, lim)
  }

  ghost function AfterTaking(w: seq<Level>): seq<Level>
    requires w != []
  {
    w[0 := w[0].(right := w[0].right - 1)]
  }

  /** The search path of `key` through `t`, which hangs below the levels `above`, ends in a
      leaf whose loss of one entry is reported. */
  ghost predicate Refuses(t: Tree, above: seq<Level>, key: Key, lim: nat)
    decreases t
  {
    if t.Leaf? then Reports(above, |t.ks| - 1, true, lim)
    else
      var i := ChildIndex(t.ks, key);
      i < |t.kids| && Refuses(t.kids[i], Levels(Into(Top, t, i)) + above, key, lim)
  }

  lemma LevelsOf(c: Ctx)
    ensures c.Top? ==> Levels(c) == []
    ensures c.Hole? ==> Levels(c) != [] && Levels(c)[1..] == Levels(c.up)
    ensures c.Hole? ==> Levels(c)[0] == Level(Size(c.ls, |c.ls| - 1), |c.ks|, Size(c.rs, 0))
  {
  }

  lemma TakenLevels(c: Ctx, c': Ctx)
    requires c.Hole? && c'.Hole? && c'.ls == c.ls && |c'.ks| == |c.ks| && Levels(c'.up) == Levels(c.up)
    requires c.rs != [] && c'.rs != [] && |c'.rs[0].ks| == |c.rs[0].ks| - 1
    ensures Levels(c) != [] && Levels(c') == AfterTaking(Levels(c))
  {
  }

  lemma IntoLevels(c: Ctx, t: Tree, i: nat)
    requires t.Inner? && i < |t.kids|
    ensures Levels(Into(c, t, i)) == Levels(Into(Top, t, i)) + Levels(c)
  {
    assert Levels(Into(Top, t, i)) == [Levels(Into(c, t, i))[0]];
  }

  /** Separators do not count. */
  lemma {:induction false} SetSepLevels(c: Ctx, key: Key)
    ensures Levels(SetSep(c, key)) == Levels(c)
    decreases c
  {
    if c.Hole? && c.ls == [] {
      SetSepLevels(c.up, key);
    }
  }

  // ---------------------------------------------------------------- without recursion

  /** How many keys the node at level `i` has when its turn comes: all before it have merged. */
  ghost function SizeAt(w: seq<Level>, n: int, i: nat): int
    requires i <= |w|
  {
    if i == 0 then n else w[i - 1].keys - 1
  }

  /** At level `i` the node is too small, cannot take from the left, and one merge test fits,
      after a key has been taken from the right or not. */
  ghost predicate MergesAt(w: seq<Level>, n: int, leaf: bool, lim: nat, i: nat)
    requires i < |w|
  {
    var m, x := SizeAt(w, n, i), w[i];
    var t := if x.right > lim / 2 then 1 else 0;
    && m < lim / 2 && x.left <= lim / 2
    && (Fits(x.left, m + t, leaf && i == 0, lim) || Fits(x.right - t, m + t, leaf && i == 0, lim))
  }

  /** At level `i` the node takes a key from the right, and then neither merge test fits. */
  ghost predicate TakesAndStops(w: seq<Level>, n: int, leaf: bool, lim: nat, i: nat)
    requires i < |w|
  {
    var m, x := SizeAt(w, n, i), w[i];
    && m < lim / 2 && x.left <= lim / 2 < x.right
    && !Fits(x.left, m + 1, leaf && i == 0, lim) && !Fits(x.right - 1, m + 1, leaf && i == 0, lim)
  }

  ghost predicate EndsAt(w: seq<Level>, n: int, leaf: bool, lim: nat, i: nat)
    requires i < |w|
  {
    TakesAndStops(w, n, leaf, lim, i) && forall j :: 0 <= j < i ==> MergesAt(w, n, leaf, lim, j)
  }

  lemma ShiftedAt(w: seq<Level>, n: int, leaf: bool, lim: nat, i: nat)
    requires i + 1 < |w|
    ensures MergesAt(w, n, leaf, lim, i + 1) == MergesAt(w[1..], w[0].keys - 1, false, lim, i)
    ensures TakesAndStops(w, n, leaf, lim, i + 1) == TakesAndStops(w[1..], w[0].keys - 1, false, lim, i)
  {
  }

  lemma ReportsStep(w: seq<Level>, n: int, leaf: bool, lim: nat)
    requires w != []
    ensures Reports(w, n, leaf, lim) <==>
            if MergesAt(w, n, leaf, lim, 0) then Reports(w[1..], w[0].keys - 1, false, lim)
            else TakesAndStops(w, n, leaf, lim, 0)
  {
    assert AfterTaking(w)[1..] == w[1..];
  }

  /** The error is reported exactly when the last level worked on has taken a key from its
      right neighbour and neither merge test fits then, all levels below it having merged. */
  lemma {:induction false} ReportsIff(w: seq<Level>, n: int, leaf: bool, lim: nat)
    ensures Reports(w, n, leaf, lim) <==> exists i :: 0 <= i < |w| && EndsAt(w, n, leaf, lim, i)
    decreases |w|
  {
    if w != [] {
      hide Reports, MergesAt, TakesAndStops;
      var v, k := w[1..], w[0].keys - 1;
      ReportsStep(w, n, leaf, lim);
      if MergesAt(w, n, leaf, lim, 0) {
        ReportsIff(v, k, false, lim);
        NotBoth(w, n, leaf, lim, 0);
        if Reports(w, n, leaf, lim) {
          var i :| 0 <= i < |v| && EndsAt(v, k, false, lim, i);
          EndsLater(w, n, leaf, lim, i);
        }
        if i :| 0 <= i < |w| && EndsAt(w, n, leaf, lim, i) {
          EndsLater(w, n, leaf, lim, i - 1);
        }
      } else if TakesAndStops(w, n, leaf, lim, 0) {
        assert EndsAt(w, n, leaf, lim, 0);
      }
    }
  }

  lemma NotBoth(w: seq<Level>, n: int, leaf: bool, lim: nat, i: nat)
    requires i < |w| && MergesAt(w, n, leaf, lim, i)
    ensures !TakesAndStops(w, n, leaf, lim, i)
  {
  }

  lemma EndsLater(w: seq<Level>, n: int, leaf: bool, lim: nat, i: nat)
    requires i + 1 < |w| && MergesAt(w, n, leaf, lim, 0)
    ensures EndsAt(w, n, leaf, lim, i + 1) <==> EndsAt(w[1..], w[0].keys - 1, false, lim, i)
  {
    hide MergesAt, TakesAndStops;
    var v, k := w[1..], w[0].keys - 1;
    ShiftedAt(w, n, leaf, lim, i);
    if EndsAt(v, k, false, lim, i) {
      forall j | 0 <= j < i + 1 ensures MergesAt(w, n, leaf, lim, j) {
        if j > 0 {
          ShiftedAt(w, n, leaf, lim, j - 1);
        }
      }
    }
    if EndsAt(w, n, leaf, lim, i + 1) {
      forall j | 0 <= j < i ensures MergesAt(v, k, false, lim, j) {
        ShiftedAt(w, n, leaf, lim, j);
      }
    }
  }

  /** Two leaves of two and four entries, at a limit of four: taking one from the right leaves
      two and three, which do not fit into one leaf. */
  lemma ReportedRemoval(p: Ptr, q: Ptr, r: Ptr)
    ensures var t := Inner(p, [5], [Leaf(q, [1, 2], [1, 2]), Leaf(r, [5, 6, 7, 8], [5, 6, 7, 8])]);
            Bal(t, 1, 4, RootMin(t)) && Refuses(t, [], 1, 4)
  {
    var a, b := Leaf(q, [1, 2], [1, 2]), Leaf(r, [5, 6, 7, 8], [5, 6, 7, 8]);
    var t := Inner(p, [5], [a, b]);
    assert ChildIndex(t.ks, 1) == 0;
    var c := Into(Top, t, 0);
    assert c.ls == [] && c.rs == [b];
    assert Levels(c) == [Level(ABSENT, 1, 4)];
    assert Levels(c) + [] == Levels(c);
    assert Refuses(a, Levels(c), 1, 4);
  }
}
