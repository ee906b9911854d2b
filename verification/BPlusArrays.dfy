/** What the shifting loops of a node do to its arrays, one step at a time. */
module BPlusArrays {
  import opened List
  import opened BPlusModel
  import opened BPlusStore

  lemma SlotUnique(ks: seq<Key>, key: Key, at: nat, idx: nat)
    requires Slot(ks, key, at) && idx <= |ks|
    requires idx > 0 ==> ks[idx - 1] < key
    requires idx < |ks| ==> key <= ks[idx]
    ensures idx == at
  {
  }

  // ---------------------------------------------------------------- insertion

  /** `s` padded to `len`, with everything from slot `at` on copied one to the right. */
  ghost function Opened<T>(s: seq<T>, at: nat, len: nat, pad: T): seq<T> {
    Pad(if at < |s| then InsertAt(s, at, s[at]) else s, len, pad)
  }

  lemma OpenedNone<T>(s: seq<T>, at: nat, len: nat, pad: T)
    requires |s| <= at
    ensures Opened(s, at, len, pad) == Pad(s, len, pad)
  {
  }

  lemma OpenedAt<T>(s: seq<T>, at: nat, len: nat, pad: T, i: nat)
    requires |s| < len && i <= at <= |s|
    ensures |Opened(s, at, len, pad)| == len
    ensures Opened(s, at, len, pad)[i] == if i < |s| then s[i] else pad
  {
  }

  lemma OpenedStep<T>(s: seq<T>, at: nat, len: nat, pad: T)
    requires |s| < len && 0 < at <= |s|
    ensures |Opened(s, at, len, pad)| == len
    ensures Opened(s, at, len, pad)[at := Opened(s, at, len, pad)[at - 1]] == Opened(s, at - 1, len, pad)
  {
  }

  lemma OpenedInsert<T>(s: seq<T>, at: nat, len: nat, pad: T, x: T)
    requires |s| < len && at <= |s|
    ensures |Opened(s, at, len, pad)| == len && |InsertAt(s, at, x)| == |s| + 1
    ensures Opened(s, at, len, pad)[at := x] == Pad(InsertAt(s, at, x), len, pad)
  {
  }

  /** The children of a node after the one in slot `at` gave way to two. */
  ghost function Forked(cs: seq<Ptr>, at: nat, left: Ptr, right: Ptr): seq<Ptr> {
    if at < |cs| then cs[..at] + [left, right] + cs[at + 1..] else [left, right]
  }

  lemma OpenedFork(cs: seq<Ptr>, at: nat, len: nat, left: Ptr, right: Ptr)
    requires |cs| < len && len >= 2 && (at < |cs| || (cs == [] && at == 0))
    ensures |Opened(cs, at + 1, len, NULL)| == len
    ensures Opened(cs, at + 1, len, NULL)[at := left][at + 1 := right] == Pad(Forked(cs, at, left, right), len, NULL)
  {
  }

  /** The kids right of slot `at` moved by `d` slots. */
  ghost function Moved(link: Links, cs: seq<Ptr>, at: int, d: int): Links {
    map x | x in link ::
      if x in cs && link[x].childIdx > at then link[x].(childIdx := link[x].childIdx + d) else link[x]
  }

  lemma MovedNone(link: Links, p: Ptr, cs: seq<Ptr>, at: nat, d: int)
    requires LinkedKids(link, p, cs) && |cs| <= at + 1
    ensures Moved(link, cs, at, d) == link
  {
  }

  lemma MovedStep(link: Links, p: Ptr, cs: seq<Ptr>, at: nat, d: int)
    requires LinkedKids(link, p, cs) && at < |cs|
    ensures cs[at] in link && cs[at] in Moved(link, cs, at, d) && Moved(link, cs, at, d)[cs[at]] == Link(p, at)
    ensures Moved(link, cs, at, d)[cs[at] := Link(p, at + d)] == Moved(link, cs, at - 1, d)
  {
    forall x | x in link && x in cs && link[x].childIdx == at ensures x == cs[at] {
      var j :| 0 <= j < |cs| && cs[j] == x;
    }
  }

  lemma MovedFork(link: Links, p: Ptr, cs: seq<Ptr>, at: nat, left: Ptr, right: Ptr)
    requires LinkedKids(link, p, cs)
    requires left in link && right in link && left != right && right !in cs
    requires at < |cs| || (cs == [] && at == 0)
    requires forall j :: 0 <= j < |cs| && j != at ==> cs[j] != left
    ensures var l := Moved(link, cs, at, 1)[left := Link(p, at)][right := Link(p, at + 1)];
            LinkedKids(l, p, Forked(cs, at, left, right)) && OnlyRelinks(link, l, Forked(cs, at, left, right))
  {
    hide Moved, Forked;
    var m, cs' := Moved(link, cs, at, 1), Forked(cs, at, left, right);
    var l := m[left := Link(p, at)][right := Link(p, at + 1)];
    forall x | x in link ensures x in m {
      MovedAt(link, cs, at, 1, x);
    }
    forall x | x in m ensures x in link {
      MovedAt(link, cs, at, 1, left);
    }
    assert l.Keys == link.Keys;
    forall j | 0 <= j < |cs'| ensures cs'[j] in l && l[cs'[j]] == Link(p, j) {
      ForkedAt(cs, at, left, right, j);
      if j < at || j > at + 1 {
        assert cs'[j] in cs && cs'[j] in link;
        MovedAt(link, cs, at, 1, cs'[j]);
      }
    }
    forall x | x in link && x !in cs' ensures l[x] == link[x] {
      ForkKeeps(cs, at, left, right, x);
      MovedAt(link, cs, at, 1, x);
    }
  }

  lemma MovedAt(link: Links, cs: seq<Ptr>, at: int, d: int, x: Ptr)
    requires x in link
    ensures var m := Moved(link, cs, at, d);
            && m.Keys == link.Keys && x in m
            && m[x] == if x in cs && link[x].childIdx > at then link[x].(childIdx := link[x].childIdx + d) else link[x]
  {
  }

  lemma ForkedAt(cs: seq<Ptr>, at: nat, left: Ptr, right: Ptr, j: nat)
    requires (at < |cs| || (cs == [] && at == 0)) && j < |Forked(cs, at, left, right)|
    ensures Forked(cs, at, left, right)[j] ==
      if j < at then cs[j] else if j == at then left else if j == at + 1 then right else cs[j - 1]
    ensures j == at || j == at + 1 || (if j < at then j else j - 1) < |cs|
  {
  }

  lemma ForkKeeps(cs: seq<Ptr>, at: nat, left: Ptr, right: Ptr, x: Ptr)
    requires x !in Forked(cs, at, left, right) && (at < |cs| || cs == [])
    ensures x != left && x != right && forall j :: 0 <= j < |cs| && j != at ==> cs[j] != x
  {
    var cs' := Forked(cs, at, left, right);
    assert if cs == [] then cs'[0] == left && cs'[1] == right else cs'[at] == left && cs'[at + 1] == right;
    forall j | 0 <= j < |cs| && j != at ensures cs[j] != x {
      assert cs[j] == if j < at then cs'[j] else cs'[j + 1];
    }
  }

  // ---------------------------------------------------------------- splitting

  /** `s` with the `k` slots from `at` on blanked. */
  ghost function Blanked<T>(s: seq<T>, at: nat, k: nat, pad: T): seq<T>
    requires at + k <= |s|
  {
    s[..at] + seq(k, _ => pad) + s[at + k..]
  }

  lemma BlankedStep<T>(s: seq<T>, at: nat, k: nat, pad: T)
    requires at + k < |s|
    ensures |Blanked(s, at, k, pad)| == |s| && Blanked(s, at, k, pad)[at + k] == s[at + k]
    ensures Blanked(s, at, k, pad)[at + k := pad] == Blanked(s, at, k + 1, pad)
  {
  }

  lemma BlankedDone<T>(s: seq<T>, at: nat, len: nat, pad: T)
    requires at <= |s| <= len
    ensures |Pad(s, len, pad)| == len && Blanked(Pad(s, len, pad), at, |s| - at, pad) == Pad(s[..at], len, pad)
  {
  }

  /** The first `i` slots of `s[from..]` copied to the front of an empty array. */
  ghost function Copied<T>(s: seq<T>, from: nat, i: nat, len: nat, pad: T): seq<T>
    requires from + i <= |s|
  {
    Pad(s[from..from + i], len, pad)
  }

  lemma CopiedNone<T>(s: seq<T>, from: nat, len: nat, pad: T)
    requires from <= |s|
    ensures Copied(s, from, 0, len, pad) == Pad([], len, pad)
  {
  }

  lemma CopiedStep<T>(s: seq<T>, from: nat, i: nat, len: nat, pad: T)
    requires from + i < |s| && i < len
    ensures |Copied(s, from, i, len, pad)| == len
    ensures Copied(s, from, i, len, pad)[i := s[from + i]] == Copied(s, from, i + 1, len, pad)
  {
  }

  lemma CopiedAll<T>(s: seq<T>, from: nat, len: nat, pad: T)
    requires from <= |s|
    ensures Copied(s, from, |s| - from, len, pad) == Pad(s[from..], len, pad)
  {
    assert s[from..|s|] == s[from..];
  }

  lemma PadFull<T>(s: seq<T>, len: nat, pad: T)
    requires |s| == len
    ensures Pad(s, len, pad) == s
  {
  }

  lemma BlankedNone<T>(s: seq<T>, at: nat, pad: T)
    requires at <= |s|
    ensures Blanked(s, at, 0, pad) == s
  {
  }

  lemma PadAt<T>(s: seq<T>, len: nat, pad: T, i: nat)
    requires |s| <= len && i < len
    ensures |Pad(s, len, pad)| == len && Pad(s, len, pad)[i] == if i < |s| then s[i] else pad
  {
  }

  /** `cs` made the first children of `q`, in order. */
  ghost function Adopted(link: Links, q: Ptr, cs: seq<Ptr>): Links {
    if cs == [] then link
    else Adopted(link, q, cs[..|cs| - 1])[cs[|cs| - 1] := Link(q, |cs| - 1)]
  }

  lemma {:induction false} AdoptedLinks(link: Links, q: Ptr, cs: seq<Ptr>)
    requires Distinct(cs) && forall j :: 0 <= j < |cs| ==> cs[j] in link
    ensures LinkedKids(Adopted(link, q, cs), q, cs) && OnlyRelinks(link, Adopted(link, q, cs), cs)
    decreases |cs|
  {
    if cs != [] {
      var n := |cs| - 1;
      AdoptedLinks(link, q, cs[..n]);
      assert Adopted(link, q, cs).Keys == Adopted(link, q, cs[..n]).Keys + {cs[n]};
      assert link.Keys + {cs[n]} == link.Keys;
    }
  }

  /** The first `i` of `cs[from..]` made children of `q`. */
  ghost function Adopting(link: Links, q: Ptr, cs: seq<Ptr>, from: nat, i: nat): Links
    requires from + i <= |cs|
  {
    Adopted(link, q, cs[from..from + i])
  }

  lemma AdoptingNone(link: Links, q: Ptr, cs: seq<Ptr>, from: nat)
    requires from <= |cs|
    ensures Adopting(link, q, cs, from, 0) == link
  {
  }

  lemma AdoptingStep(link: Links, q: Ptr, cs: seq<Ptr>, from: nat, i: nat)
    requires from + i < |cs|
    ensures Adopting(link, q, cs, from, i)[cs[from + i] := Link(q, i)] == Adopting(link, q, cs, from, i + 1)
  {
    var a := cs[from..from + i + 1];
    assert a[..|a| - 1] == cs[from..from + i] && a[|a| - 1] == cs[from + i];
  }

  lemma AdoptingAll(link: Links, q: Ptr, cs: seq<Ptr>, from: nat)
    requires from <= |cs|
    ensures Adopting(link, q, cs, from, |cs| - from) == Adopted(link, q, cs[from..])
  {
    assert cs[from..|cs|] == cs[from..];
  }

  lemma EmptyNode(link: Links, p: Ptr, key: Key, left: Ptr, right: Ptr)
    ensures LinkedKids(link, p, []) && Forked([], 0, left, right) == [left, right] && InsertAt([], 0, key) == [key]
  {
  }

  // ---------------------------------------------------------------- removal

  /** `a` with the slots `at..i` overwritten by their right neighbours. */
  ghost function Closing<T>(a: seq<T>, at: nat, i: nat): seq<T>
    requires at <= i < |a|
  {
    a[..at] + a[at + 1..i + 1] + a[i..]
  }

  lemma ClosingNone<T>(a: seq<T>, at: nat)
    requires at < |a|
    ensures Closing(a, at, at) == a
  {
  }

  lemma ClosingStep<T>(a: seq<T>, at: nat, i: nat)
    requires at <= i < |a| - 1
    ensures |Closing(a, at, i)| == |a| && Closing(a, at, i)[i + 1] == a[i + 1]
    ensures Closing(a, at, i)[i := a[i + 1]] == Closing(a, at, i + 1)
  {
  }

  lemma ClosingDone<T>(s: seq<T>, at: nat, len: nat, pad: T)
    requires at < |s| <= len
    ensures |Pad(s, len, pad)| == len && |Closing(Pad(s, len, pad), at, |s| - 1)| == len
    ensures |RemoveAt(s, at)| == |s| - 1
    ensures Closing(Pad(s, len, pad), at, |s| - 1)[|s| - 1 := pad] == Pad(RemoveAt(s, at), len, pad)
  {
  }

  /** The kids in slots `lo + 1` to `hi` moved one slot down. */
  ghost function Lowered(link: Links, cs: seq<Ptr>, lo: int, hi: int): Links {
    map x | x in link ::
      if x in cs && lo < link[x].childIdx <= hi then link[x].(childIdx := link[x].childIdx - 1) else link[x]
  }

  lemma LoweredNone(link: Links, cs: seq<Ptr>, lo: int)
    ensures Lowered(link, cs, lo, lo) == link
  {
  }

  lemma LoweredStep(link: Links, p: Ptr, cs: seq<Ptr>, lo: nat, hi: nat)
    requires LinkedKids(link, p, cs) && lo <= hi < |cs| - 1
    ensures cs[hi + 1] in link && cs[hi + 1] in Lowered(link, cs, lo, hi)
    ensures Lowered(link, cs, lo, hi)[cs[hi + 1]] == Link(p, hi + 1)
    ensures Lowered(link, cs, lo, hi)[cs[hi + 1] := Link(p, hi)] == Lowered(link, cs, lo, hi + 1)
  {
    forall x | x in link && x in cs && link[x].childIdx == hi + 1 ensures x == cs[hi + 1] {
      var j :| 0 <= j < |cs| && cs[j] == x;
    }
  }

  lemma LoweredDone(link: Links, p: Ptr, cs: seq<Ptr>, at: nat)
    requires LinkedKids(link, p, cs) && at < |cs|
    ensures var l := Lowered(link, cs, at, |cs| - 1);
            && LinkedKids(l, p, RemoveAt(cs, at)) && OnlyRelinks(link, l, RemoveAt(cs, at))
            && cs[at] in l && l[cs[at]] == Link(p, at)
  {
    var l, cs' := Lowered(link, cs, at, |cs| - 1), RemoveAt(cs, at);
    forall j | 0 <= j < |cs'| ensures cs'[j] in l && l[cs'[j]] == Link(p, j) {
      assert cs'[j] == if j < at then cs[j] else cs[j + 1];
    }
    forall x | x in link && x !in cs' ensures l[x] == link[x] {
      RemoveKeeps(cs, at, x);
    }
  }

  lemma RemoveKeeps(cs: seq<Ptr>, at: nat, x: Ptr)
    requires at < |cs| && x !in RemoveAt(cs, at)
    ensures forall j :: 0 <= j < |cs| && j != at ==> cs[j] != x
  {
    var cs' := RemoveAt(cs, at);
    forall j | 0 <= j < |cs| && j != at ensures cs[j] != x {
      assert cs[j] == if j < at then cs'[j] else cs'[j - 1];
    }
  }

  lemma PadKeeps<T>(s: seq<T>, len: nat, pad: T, i: nat)
    requires i < |s|
    ensures |Pad(s, len, pad)| >= |s| && Pad(s, len, pad)[i] == s[i]
  {
  }

  lemma PadUpdate<T>(s: seq<T>, len: nat, pad: T, i: nat, x: T)
    requires i < |s|
    ensures |Pad(s, len, pad)| >= |s| && Pad(s, len, pad)[i := x] == Pad(s[i := x], len, pad)
  {
  }

  lemma PadAppend<T>(s: seq<T>, len: nat, pad: T, x: T)
    requires |s| < len
    ensures |Pad(s, len, pad)| == len && Pad(s, len, pad)[|s| := x] == Pad(s + [x], len, pad)
  {
  }

  lemma KidsParent(link: Links, p: Ptr, cs: seq<Ptr>)
    requires LinkedKids(link, p, cs)
    ensures forall x :: x in cs ==> x in link && link[x].parent == p
  {
    forall x | x in cs ensures x in link && link[x].parent == p {
      var j :| 0 <= j < |cs| && cs[j] == x;
    }
  }

  lemma RemovedSubset(cs: seq<Ptr>, at: nat)
    requires at < |cs|
    ensures forall x :: x in RemoveAt(cs, at) ==> x in cs
  {
  }

  lemma InsertFront<T>(s: seq<T>, x: T)
    ensures InsertAt(s, 0, x) == [x] + s
  {
  }

  lemma RemoveLast<T>(s: seq<T>)
    requires s != []
    ensures RemoveAt(s, |s| - 1) == s[..|s| - 1]
  {
  }

  lemma RemoveSecond(ks: seq<Key>, cs: seq<Ptr>)
    requires ks != [] && |cs| >= 2
    ensures RemoveAt(ks, 0) == ks[1..] && RemoveAt(cs, 1) == [cs[0]] + cs[2..]
  {
  }

  lemma MovedFront(link: Links, p: Ptr, cs: seq<Ptr>, left: Ptr)
    requires LinkedKids(link, p, cs) && left in link && left !in cs
    ensures var l := Moved(link, cs, -1, 1)[left := Link(p, 0)];
            LinkedKids(l, p, [left] + cs) && OnlyRelinks(link, l, [left] + cs)
  {
    var l, cs' := Moved(link, cs, -1, 1)[left := Link(p, 0)], [left] + cs;
    forall j | 0 <= j < |cs'| ensures cs'[j] in l && l[cs'[j]] == Link(p, j) {
      if j > 0 {
        assert cs'[j] == cs[j - 1];
      }
    }
  }

  /** The second child moved to the front slot in place of the first. */
  lemma HeadLinks(link: Links, p: Ptr, cs: seq<Ptr>)
    requires |cs| >= 2 && LinkedKids(link, p, [cs[0]] + cs[2..]) && cs[1] in link && link[cs[1]] == Link(p, 1)
    requires forall j :: 2 <= j < |cs| ==> cs[j] != cs[1]
    ensures var l := link[cs[1] := Link(p, 0)];
            LinkedKids(l, p, cs[1..]) && OnlyRelinks(link, l, cs[1..])
              && forall x :: x in cs[1..] ==> x in link && link[x].parent == p
  {
    var l, cs1 := link[cs[1] := Link(p, 0)], [cs[0]] + cs[2..];
    forall j | 0 <= j < |cs[1..]| ensures cs[1..][j] in link && link[cs[1..][j]].parent == p
      && l[cs[1..][j]] == Link(p, j) {
      if j > 0 {
        assert cs[1..][j] == cs1[j];
      }
    }
  }

  /** The separator of a pair in the key array of the node above, and its replacement. */
  lemma SeparatorAt(ks: seq<Key>, i: nat, k: Key, k': Key, len: nat)
    requires i <= |ks| < len
    ensures |Pad(InsertAt(ks, i, k), len, INVALID_KEY)| == len && Pad(InsertAt(ks, i, k), len, INVALID_KEY)[i] == k
    ensures Pad(InsertAt(ks, i, k), len, INVALID_KEY)[i := k'] == Pad(InsertAt(ks, i, k'), len, INVALID_KEY)
    ensures |InsertAt(ks, i, k)| == |InsertAt(ks, i, k')|
  {
  }

  lemma AttachedKeys(node: Nodes, link: Links, p: Ptr, keys: seq<Key>, x: Ptr)
    requires p in node && x in link && !Attached(node, link, x)
    ensures !Attached(node[p := node[p].(keys := keys)], link, x)
  {
  }

  lemma KidsLinkedFrame(link: Links, link': Links, p: Ptr, cs: seq<Ptr>, ds: seq<Ptr>)
    requires LinkedKids(link, p, cs) && link'.Keys == link.Keys && (forall x :: x in cs ==> x !in ds)
    requires forall x :: x in link && x !in ds ==> link'[x] == link[x]
    ensures LinkedKids(link', p, cs)
  {
    forall j | 0 <= j < |cs| ensures cs[j] in link' && link'[cs[j]] == Link(p, j) {
      var x := cs[j];
      assert x in cs && x !in ds;
      assert x in link && link[x] == Link(p, j);
    }
  }

  lemma RootsLen(a: seq<Tree>, b: seq<Tree>)
    ensures |Roots(a)| == |a| && |Roots(b)| == |b|
  {
  }

  lemma PadBody(ks: seq<Key>, cs: seq<Ptr>, lim: nat)
    requires |cs| == |ks| + 1 <= lim + 1
    ensures |Pad(ks, lim + 1, INVALID_KEY)| == lim + 1 && |Pad(cs, lim + 2, NULL)| == lim + 2
    ensures forall i :: 0 <= i < |ks| ==> Pad(ks, lim + 1, INVALID_KEY)[i] == ks[i]
    ensures forall i :: 0 <= i < |cs| ==> Pad(cs, lim + 2, NULL)[i] == cs[i]
  {
  }

  /** The first child given up and the second moved into its slot. */
  lemma CutHead(node0: Nodes, link0: Links, node: Nodes, link: Links, lim: nat, p: Ptr, ks: seq<Key>, cs: seq<Ptr>)
    requires |cs| == |ks| + 1 <= lim + 1 && ks != [] && NULL !in cs && LinkedKids(link0, p, cs)
    requires node == node0[p := InnerNode(lim, ks[1..], [cs[0]] + cs[2..])] && Linked(node, link)
    requires LinkedKids(link, p, [cs[0]] + cs[2..]) && OnlyRelinks(link0, link, [cs[0]] + cs[2..])
    requires cs[1] in link && link[cs[1]] == Link(p, 1)
    ensures |node[p].children| == lim + 2 && cs[1] != NULL
    ensures var link' := link[cs[1] := link[cs[1]].(childIdx := 0)];
            var node' := node[p := node[p].(children := node[p].children[0 := cs[1]])];
            && node' == node0[p := InnerNode(lim, ks[1..], cs[1..])] && link'.Keys == link0.Keys
            && (forall x :: x in link0 && x !in cs ==> link'[x] == link0[x])
            && cs[0] in link' && !Attached(node', link', cs[0]) && Linked(node', link')
  {
    hide Linked, Pad;
    var cs1 := [cs[0]] + cs[2..];
    forall j | 0 <= j < |cs| ensures link0[cs[j]] == Link(p, j) {}
    HeadLinks(link, p, cs);
    LinkedUpdate(node, link, link[cs[1] := Link(p, 0)], lim, p, ks[1..], cs[1..]);
    PadAt(cs1, lim + 2, NULL, 0);
    PadUpdate(cs1, lim + 2, NULL, 0, cs[1]);
    assert cs1[0 := cs[1]] == cs[1..];
    PadAt(cs[1..], lim + 2, NULL, 0);
    assert cs1[0] == cs[0];
    var node' := node[p := InnerNode(lim, ks[1..], cs[1..])];
    assert node' == node0[p := InnerNode(lim, ks[1..], cs[1..])];
    forall x | x in link0 && x !in cs ensures x !in cs1 && x !in cs[1..] {}
  }
}
