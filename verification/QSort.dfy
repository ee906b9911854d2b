/** `qsort`: quicksort in place around a pivot that moves while the array is partitioned. */
module QSort {

  /** What a comparison function has to be: a total preorder, told by its sign. */
  ghost predicate Preorder<T(!new)>(cmp: (T, T) -> int) {
    && (forall x, y :: cmp(x, y) < 0 <==> cmp(y, x) > 0)
    && (forall x, y, z :: cmp(x, y) <= 0 && cmp(y, z) <= 0 ==> cmp(x, z) <= 0)
  }

  ghost predicate Sorted<T>(s: seq<T>, cmp: (T, T) -> int) {
    forall i, j :: 0 <= i < j < |s| ==> cmp(s[i], s[j]) <= 0
  }

  ghost predicate AtMost<T>(s: seq<T>, v: T, cmp: (T, T) -> int) {
    forall i :: 0 <= i < |s| ==> cmp(s[i], v) <= 0
  }

  ghost predicate AtLeast<T>(s: seq<T>, v: T, cmp: (T, T) -> int) {
    forall i :: 0 <= i < |s| ==> cmp(v, s[i]) <= 0
  }

  /** A part of an array has been permuted and the rest left alone. */
  ghost predicate Permuted<T>(s: seq<T>, t: seq<T>, p: nat, q: nat)
    requires p <= q <= |s|
  {
    |t| == |s| && t[..p] == s[..p] && t[q..] == s[q..] && multiset(t[p..q]) == multiset(s[p..q])
  }

  lemma PermutedTrans<T>(s: seq<T>, t: seq<T>, u: seq<T>, p: nat, q: nat)
    requires p <= q <= |s| && Permuted(s, t, p, q) && Permuted(t, u, p, q)
    ensures Permuted(s, u, p, q)
  {
  }

  /** A permutation of a smaller part is one of a larger part. */
  lemma PermutedWiden<T>(s: seq<T>, t: seq<T>, p: nat, q: nat, p': nat, q': nat)
    requires p' <= p <= q <= q' <= |s| && Permuted(s, t, p, q)
    ensures Permuted(s, t, p', q')
  {
    assert s[p'..q'] == s[p'..p] + s[p..q] + s[q..q'];
    assert t[p'..q'] == t[p'..p] + t[p..q] + t[q..q'];
    assert s[p'..p] == s[..p][p'..] && t[p'..p] == t[..p][p'..];
    assert s[q..q'] == s[q..][..q' - q] && t[q..q'] == t[q..][..q' - q];
    assert t[..p'] == t[..p][..p'] && s[..p'] == s[..p][..p'];
    assert t[q'..] == t[q..][q' - q..] && s[q'..] == s[q..][q' - q..];
  }

  lemma SwapPermutes<T>(s: seq<T>, i: nat, j: nat)
    requires i < j < |s|
    ensures Permuted(s, s[i := s[j]][j := s[i]], i, j + 1)
  {
    var t := s[i := s[j]][j := s[i]];
    assert s[i..j + 1] == [s[i]] + s[i + 1..j] + [s[j]];
    assert t[i..j + 1] == [s[j]] + s[i + 1..j] + [s[i]];
  }

  lemma AtMostPermuted<T>(s: seq<T>, t: seq<T>, v: T, cmp: (T, T) -> int)
    requires AtMost(s, v, cmp) && multiset(s) == multiset(t)
    ensures AtMost(t, v, cmp)
  {
    forall i | 0 <= i < |t| ensures cmp(t[i], v) <= 0 {
      assert t[i] in multiset(s);
    }
  }

  lemma AtLeastPermuted<T>(s: seq<T>, t: seq<T>, v: T, cmp: (T, T) -> int)
    requires AtLeast(s, v, cmp) && multiset(s) == multiset(t)
    ensures AtLeast(t, v, cmp)
  {
    forall i | 0 <= i < |t| ensures cmp(v, t[i]) <= 0 {
      assert t[i] in multiset(s);
    }
  }

  lemma SortedJoin<T(!new)>(s: seq<T>, t: seq<T>, v: T, cmp: (T, T) -> int)
    requires Preorder(cmp) && Sorted(s, cmp) && Sorted(t, cmp) && AtMost(s, v, cmp) && AtLeast(t, v, cmp)
    ensures Sorted(s + t, cmp)
  {
    var u := s + t;
    forall i, j | 0 <= i < j < |u| ensures cmp(u[i], u[j]) <= 0 {
      if i < |s| <= j {
        assert cmp(s[i], v) <= 0 && cmp(v, t[j - |s|]) <= 0;
      }
    }
  }

  method Swap<T>(a: array<T>, i: nat, j: nat)
    requires i < j < a.Length
    modifies a
    ensures a[..] == old(a[..])[i := old(a[j])][j := old(a[i])]
  {
    a[i], a[j] := a[j], a[i];
  }

  lemma Flip<T(!new)>(cmp: (T, T) -> int, x: T, y: T)
    requires Preorder(cmp)
    ensures cmp(x, x) == 0 && (cmp(x, y) >= 0 ==> cmp(y, x) <= 0)
  {
  }

  /** Down to the pivot or to an element that is not above it.  Left of the pivot, an element
      swapped there earlier stops the scan before it runs off the array. */
  method ScanDown<T(!new)>(a: array<T>, p: nat, lo: nat, from: nat, m: nat, cmp: (T, T) -> int) returns (hi: nat)
    requires lo <= from + 1 && p + from < a.Length && p + m < a.Length && Preorder(cmp)
    requires if lo == 0 then m <= from else cmp(a[p + lo - 1], a[p + m]) <= 0
    ensures hi <= from && lo <= hi + 1 && (lo == 0 ==> m <= hi) && cmp(a[p + hi], a[p + m]) <= 0
    ensures forall i :: p + hi < i <= p + from ==> cmp(a[p + m], a[i]) <= 0
  {
    hide Preorder;
    hi := from;
    while hi != m && cmp(a[p + hi], a[p + m]) > 0
      invariant hi <= from && lo <= hi + 1 && (lo == 0 ==> m <= hi)
      invariant forall i :: p + hi < i <= p + from ==> cmp(a[p + m], a[i]) <= 0
      decreases hi
    {
      Flip(cmp, a[p + hi], a[p + m]);
      hi := hi - 1;
    }
    Flip(cmp, a[p + m], a[p + m]);
  }

  /** Up to the pivot, to an element that is not below it, or to `hi`. */
  method ScanUp<T(!new)>(a: array<T>, p: nat, from: nat, hi: nat, m: nat, cmp: (T, T) -> int) returns (lo: nat)
    requires p + hi < a.Length && p + m < a.Length && Preorder(cmp)
    ensures from <= lo && (if from <= hi then lo <= hi else lo == from) && (from <= m <= hi ==> lo <= m)
    ensures forall i :: p + from <= i < p + lo ==> cmp(a[i], a[p + m]) <= 0
    ensures lo < hi ==> cmp(a[p + m], a[p + lo]) <= 0
  {
    hide Preorder;
    lo := from;
    while lo < hi && lo != m && cmp(a[p + lo], a[p + m]) < 0
      invariant from <= lo && (if from <= hi then lo <= hi else lo == from) && (from <= m <= hi ==> lo <= m)
      invariant forall i :: p + from <= i < p + lo ==> cmp(a[i], a[p + m]) <= 0
    {
      lo := lo + 1;
    }
    if lo < hi {
      Flip(cmp, a[p + lo], a[p + m]);
      Flip(cmp, a[p + m], a[p + m]);
    }
  }

  /** The swap of two elements of the part from `p` to `r`. */
  method SwapWithin<T>(a: array<T>, p: nat, r: nat, i: nat, j: nat, ghost s: seq<T>)
    requires p <= i < j < r <= a.Length && |s| == a.Length && Permuted(s, a[..], p, r)
    modifies a
    ensures Permuted(s, a[..], p, r) && a[i] == old(a[j]) && a[j] == old(a[i])
    ensures forall k :: 0 <= k < a.Length && k != i && k != j ==> a[k] == old(a[k])
  {
    hide Permuted;
    ghost var t := a[..];
    SwapPermutes(t, i, j);
    PermutedWiden(t, t[i := t[j]][j := t[i]], i, j + 1, p, r);
    PermutedTrans(s, t, t[i := t[j]][j := t[i]], p, r);
    Swap(a, i, j);
    assert a[i] == a[..][i] && a[j] == a[..][j];
    forall k | 0 <= k < a.Length && k != i && k != j ensures a[k] == old(a[k]) {
      assert a[k] == a[..][k];
    }
  }

  /** What is below `lo` is not above the pivot `v`, what is above `hi` not below it. */
  ghost predicate Sides<T(!new)>(a: array<T>, p: nat, n: nat, lo: nat, hi: nat, v: T, cmp: (T, T) -> int)
    requires p + n <= a.Length && lo <= n
    reads a
  {
    && (forall i :: p <= i < p + lo ==> cmp(a[i], v) <= 0)
    && (forall i :: p + hi < i < p + n ==> cmp(v, a[i]) <= 0)
  }

  /** Between two turns of the partitioning loop; the pivot is in slot `m`. */
  ghost predicate Parting<T(!new)>(a: array<T>, s: seq<T>, p: nat, n: nat, lo: nat, hi: nat, m: nat, v: T, cmp: (T,
                            T) -> int)
    reads a
  {
    && lo <= hi + 1 <= n && m < n && p + n <= a.Length == |s| && a[p + m] == v && Permuted(s, a[..], p, p + n)
    && Sides(a, p, n, lo, hi, v, cmp) && if lo == 0 then hi == n - 1 && m < hi else hi < n - 1
  }

  /** The two scans of a turn. */
  method ScanBoth<T(!new)>(a: array<T>, p: nat, n: nat, lo0: nat, hi0: nat, m: nat, cmp: (T, T) -> int, ghost s: seq<T>)
    returns (lo: nat, hi: nat)
    requires p + m < a.Length && Parting(a, s, p, n, lo0, hi0, m, a[p + m], cmp) && Preorder(cmp)
    ensures lo0 <= lo <= n && hi <= hi0 && p + hi < a.Length && Sides(a, p, n, lo, hi, a[p + m], cmp)
      && cmp(a[p + hi], a[p + m]) <= 0
    ensures if lo < hi then cmp(a[p + m], a[p + lo]) <= 0 else hi <= lo && hi < n - 1
  {
    hide Permuted, Preorder;
    hi := ScanDown(a, p, lo0, hi0, m, cmp);
    lo := ScanUp(a, p, lo0, hi, m, cmp);
  }

  /** The swap of a turn; the pivot may move with it. */
  method SwapPair<T(!new)>(a: array<T>, p: nat, n: nat, lo: nat, hi: nat, m0: nat, cmp: (T, T) -> int, ghost s: seq<T>)
    returns (m: nat)
    requires lo < hi < n && m0 < n && p + n <= a.Length == |s| && Permuted(s, a[..], p, p + n)
    requires Sides(a, p, n, lo, hi, a[p + m0], cmp) && cmp(a[p + hi], a[p + m0]) <= 0 && cmp(a[p + m0], a[p + lo]) <= 0
    modifies a
    ensures Parting(a, s, p, n, lo + 1, hi - 1, m, old(a[p + m0]), cmp)
  {
    hide Permuted;
    m := m0;
    SwapWithin(a, p, p + n, p + lo, p + hi, s);
    if lo == m {
      m := hi;
    } else if hi == m {
      m := lo;
    }
  }

  /** One turn of the loop: two scans and, unless they have met, a swap. */
  method PartTurn<T(!new)>(a: array<T>, p: nat, n: nat, lo0: nat, hi0: nat, m0: nat, cmp: (T, T) -> int,
                    ghost s: seq<T>, ghost v: T)
    returns (done: bool, lo: nat, hi: nat, m: nat)
    requires Parting(a, s, p, n, lo0, hi0, m0, v, cmp) && Preorder(cmp)
    modifies a
    ensures !done ==> Parting(a, s, p, n, lo, hi, m, v, cmp) && hi - lo < hi0 - lo0
    ensures done ==> hi < n - 1 && Permuted(s, a[..], p, p + n)
    ensures done ==> AtMost(a[p..p + hi + 1], v, cmp) && AtLeast(a[p + hi + 1..p + n], v, cmp)
  {
    hide Permuted, Preorder, AtMost, AtLeast;
    m := m0;
    lo, hi := ScanBoth(a, p, n, lo0, hi0, m, cmp, s);
    done := lo >= hi;
    if done {
      CutHere(a, p, hi, n, v, cmp);
      return;
    }
    hide Sides;
    m := SwapPair(a, p, n, lo, hi, m, cmp, s);
    lo, hi := lo + 1, hi - 1;
  }

  /** The partitioning loop: the part of the array from `p` on is cut behind `hi`, and both
      pieces are shorter than the whole. */
  method Partition<T(!new)>(a: array<T>, p: nat, n: nat, cmp: (T, T) -> int) returns (hi: nat, ghost v: T)
    requires p + n <= a.Length && n >= 3 && Preorder(cmp)
    modifies a
    ensures Permuted(old(a[..]), a[..], p, p + n) && hi < n - 1
    ensures AtMost(a[p..p + hi + 1], v, cmp) && AtLeast(a[p + hi + 1..p + n], v, cmp)
  {
    hide Permuted, Preorder, AtMost, AtLeast;
    var done, lo: nat, m: nat := false, 0, (n - 1) / 2;
    hi := n - 1;
    v := a[p + m];
    ghost var s := a[..];
    PermutedSelf(s, p, p + n);
    while !done
      invariant !done ==> Parting(a, s, p, n, lo, hi, m, v, cmp)
      invariant done ==> Permuted(s, a[..], p, p + n) && hi < n - 1
      invariant done ==> AtMost(a[p..p + hi + 1], v, cmp) && AtLeast(a[p + hi + 1..p + n], v, cmp)
      decreases !done, hi + 1 - lo
    {
      done, lo, hi, m := PartTurn(a, p, n, lo, hi, m, cmp, s, v);
    }
  }

  lemma CutHere<T>(a: array<T>, p: nat, hi: nat, n: nat, v: T, cmp: (T, T) -> int)
    requires hi < n && p + n <= a.Length
    requires forall i :: p <= i <= p + hi ==> cmp(a[i], v) <= 0
    requires forall i :: p + hi < i < p + n ==> cmp(v, a[i]) <= 0
    ensures AtMost(a[p..p + hi + 1], v, cmp) && AtLeast(a[p + hi + 1..p + n], v, cmp)
  {
  }

  lemma PermutedSelf<T>(s: seq<T>, p: nat, q: nat)
    requires p <= q <= |s|
    ensures Permuted(s, s, p, q)
  {
  }

  /** The case of two elements. */
  method SortTwo<T(!new)>(a: array<T>, p: nat, cmp: (T, T) -> int)
    requires p + 2 <= a.Length && Preorder(cmp)
    modifies a
    ensures Permuted(old(a[..]), a[..], p, p + 2) && Sorted(a[p..p + 2], cmp)
  {
    hide Permuted, Preorder;
    PermutedSelf(a[..], p, p + 2);
    Flip(cmp, a[p], a[p + 1]);
    if cmp(a[p], a[p + 1]) > 0 {
      SwapWithin(a, p, p + 2, p, p + 1, a[..]);
    }
  }

  method Sort<T(!new)>(a: array<T>, p: nat, n: nat, cmp: (T, T) -> int)
    requires p + n <= a.Length && Preorder(cmp)
    modifies a
    ensures Permuted(old(a[..]), a[..], p, p + n) && Sorted(a[p..p + n], cmp)
    decreases n
  {
    hide Permuted, Preorder, AtMost, AtLeast;
    if n <= 1 {
      PermutedSelf(a[..], p, p + n);
      return;
    }
    if n == 2 {
      SortTwo(a, p, cmp);
      return;
    }
    hide Sorted;
    ghost var s := a[..];
    var hi, v := Partition(a, p, n, cmp);
    var q := p + hi + 1;
    ghost var s1 := a[..];
    Sort(a, p, hi + 1, cmp);
    ghost var s2 := a[..];
    Sort(a, q, n - hi - 1, cmp);
    BothSorted(s, s1, s2, a[..], p, q, p + n, v, cmp);
  }

  lemma BothSorted<T(!new)>(s: seq<T>, s1: seq<T>, s2: seq<T>, s3: seq<T>, p: nat, q: nat, r: nat, v: T, cmp: (T,
                     T) -> int)
    requires p <= q <= r <= |s| == |s1| == |s2| == |s3| && Preorder(cmp)
    requires Permuted(s, s1, p, r) && AtMost(s1[p..q], v, cmp) && AtLeast(s1[q..r], v, cmp)
    requires Permuted(s1, s2, p, q) && Sorted(s2[p..q], cmp) && Permuted(s2, s3, q, r) && Sorted(s3[q..r], cmp)
    ensures Permuted(s, s3, p, r) && Sorted(s3[p..r], cmp)
  {
    hide Permuted, Sorted, Preorder, AtMost, AtLeast;
    FirstHalf(s1, s2, p, q, r);
    SecondHalf(s2, s3, p, q, r);
    AtMostPermuted(s1[p..q], s3[p..q], v, cmp);
    AtLeastPermuted(s1[q..r], s3[q..r], v, cmp);
    SortedJoin(s3[p..q], s3[q..r], v, cmp);
    assert s3[p..r] == s3[p..q] + s3[q..r];
    PermutedWiden(s1, s2, p, q, p, r);
    PermutedWiden(s2, s3, q, r, p, r);
    PermutedTrans(s, s1, s2, p, r);
    PermutedTrans(s, s2, s3, p, r);
  }

  lemma FirstHalf<T>(s: seq<T>, t: seq<T>, p: nat, q: nat, r: nat)
    requires p <= q <= r <= |s| && Permuted(s, t, p, q)
    ensures |t| == |s| && t[q..r] == s[q..r] && multiset(t[p..q]) == multiset(s[p..q])
  {
    assert t[q..r] == t[q..][..r - q] && s[q..r] == s[q..][..r - q];
  }

  lemma SecondHalf<T>(s: seq<T>, t: seq<T>, p: nat, q: nat, r: nat)
    requires p <= q <= r <= |s| && Permuted(s, t, q, r)
    ensures |t| == |s| && t[p..q] == s[p..q] && multiset(t[q..r]) == multiset(s[q..r])
  {
    assert t[p..q] == t[..q][p..] && s[p..q] == s[..q][p..];
  }
}
