/** `memcpy` and `memmove`: copying by bytes and by words over memory that may overlap. */
module Memory {
  import opened PageMath

  /** The bytes from `dest + i` to `dest + j` taken at once from `src + i` on. */
  ghost function Moved(s: seq<int>, dest: nat, src: nat, i: nat, j: nat): seq<int>
    requires i <= j && src + j <= |s|
  {
    seq(|s|, x requires 0 <= x < |s| => if dest + i <= x < dest + j then s[src + (x - dest)] else s[x])
  }

  /** A word, or a byte, read as a whole and then written as a whole. */
  ghost function Stored(s: seq<int>, p: nat, q: nat, w: nat): seq<int>
    requires q + w <= |s|
  {
    Moved(s, p, q, 0, w)
  }

  lemma Forward(s: seq<int>, dest: nat, src: nat, k: nat, w: nat)
    requires dest + k + w <= |s| && src + k + w <= |s| && (dest <= src || src + k + w <= dest)
    ensures Stored(Moved(s, dest, src, 0, k), dest + k, src + k, w) == Moved(s, dest, src, 0, k + w)
  {
  }

  lemma Backward(s: seq<int>, dest: nat, src: nat, k: nat, w: nat, len: nat)
    requires w <= k <= len && dest + len <= |s| && src + len <= |s| && src <= dest
    ensures Stored(Moved(s, dest, src, k, len), dest + k - w, src + k - w, w) == Moved(s, dest, src, k - w, len)
  {
  }

  lemma Nothing(s: seq<int>, dest: nat, src: nat, i: nat, j: nat)
    requires i <= j && src + j <= |s| && (i == j || src == dest)
    ensures Moved(s, dest, src, i, j) == s
  {
  }

  method Store(m: array<int>, p: nat, q: nat, w: nat)
    requires p + w <= m.Length && q + w <= m.Length
    modifies m
    ensures m[..] == Stored(old(m[..]), p, q, w)
  {
    var word := m[q..q + w];
    forall i | 0 <= i < w {
      m[p + i] := word[i];
    }
    assert forall x :: p <= x < p + w ==> m[x] == word[x - p];
  }

  /** Units of `w` bytes, forwards. */
  method CopyUp(m: array<int>, dest: nat, src: nat, k: nat, w: nat, n: nat, ghost s: seq<int>)
    requires dest + k + w * n <= m.Length && src + k + w * n <= m.Length && (dest <= src || src + k + w * n <= dest)
    requires |s| == m.Length && m[..] == Moved(s, dest, src, 0, k)
    modifies m
    ensures m[..] == Moved(s, dest, src, 0, k + w * n)
  {
    hide Moved;
    var i := 0;
    while i < n
      invariant 0 <= i <= n && m[..] == Moved(s, dest, src, 0, k + w * i) && w * i <= w * n
    {
      Units(w, i, n);
      Forward(s, dest, src, k + w * i, w);
      Store(m, dest + k + w * i, src + k + w * i, w);
      i := i + 1;
    }
  }

  lemma Units(w: nat, i: nat, n: nat)
    requires i < n
    ensures w * (i + 1) == w * i + w && w * (i + 1) <= w * n
  {
    assert w * n == w * (i + 1) + w * (n - i - 1);
  }

  /** `memcpy`, for ranges that do not overlap or a destination that is not above its source */
  method Memcpy(m: array<int>, dest: nat, src: nat, len: nat, w: nat)
    requires w > 0 && dest + len <= m.Length && src + len <= m.Length && (dest <= src || src + len <= dest)
    modifies m
    ensures m[..] == Moved(old(m[..]), dest, src, 0, len)
  {
    hide Moved;
    ghost var s := m[..];
    Nothing(s, dest, src, 0, 0);
    if src == dest || len == 0 {
      Nothing(s, dest, src, 0, len);
      return;
    }
    var k := LeadUp(dest, src, len, w);
    CopyUp(m, dest, src, 0, 1, k, s);
    var j := Words(len - k, w);
    CopyUp(m, dest, src, k, w, j, s);
    k := k + w * j;
    CopyUp(m, dest, src, k, 1, len - k, s);
  }

  /** The bytes before the first word boundary, when both ranges have it in the same place. */
  method LeadUp(dest: nat, src: nat, len: nat, w: nat) returns (k: nat)
    requires w > 0
    ensures k <= len && (0 < k < len ==> (src + k) % w == 0 && (dest + k) % w == 0)
  {
    var residue := src % w;
    k := 0;
    if residue != 0 && residue == dest % w {
      k := w - residue;
      NextWord(src, w);
      NextWord(dest, w);
      if k > len {
        k := len;
      }
    }
  }

  lemma NextWord(x: nat, w: nat)
    requires w > 0
    ensures 0 <= x % w < w && (x + (w - x % w)) % w == 0
  {
    var q := x / w;
    assert x + (w - x % w) == w * (q + 1);
    Multiple(w, q + 1);
  }

  method Words(x: nat, w: nat) returns (j: nat)
    requires w > 0
    ensures w * j <= x < w * j + w
  {
    j := x / w;
  }

  /** Units of `w` bytes, backwards. */
  method CopyDown(m: array<int>, dest: nat, src: nat, k: nat, w: nat, n: nat, len: nat, ghost s: seq<int>)
    requires w * n <= k <= len && dest + len <= m.Length && src + len <= m.Length && src <= dest
    requires |s| == m.Length && m[..] == Moved(s, dest, src, k, len)
    modifies m
    ensures m[..] == Moved(s, dest, src, k - w * n, len)
  {
    hide Moved;
    var i := 0;
    while i < n
      invariant 0 <= i <= n && w * i <= w * n && m[..] == Moved(s, dest, src, k - w * i, len)
    {
      Units(w, i, n);
      Backward(s, dest, src, k - w * i, w, len);
      Store(m, dest + (k - w * i) - w, src + (k - w * i) - w, w);
      i := i + 1;
    }
  }

  /** `memmove` is a copy that takes all bytes at once, however the ranges lie. */
  method Memmove(m: array<int>, dest: nat, src: nat, len: nat, w: nat)
    requires w > 0 && dest + len <= m.Length && src + len <= m.Length
    modifies m
    ensures m[..] == Moved(old(m[..]), dest, src, 0, len)
  {
    hide Moved;
    ghost var s := m[..];
    if src == dest || len == 0 {
      Nothing(s, dest, src, 0, len);
      return;
    }
    if src > dest || src + len <= dest {
      Memcpy(m, dest, src, len, w);
      return;
    }
    Nothing(s, dest, src, len, len);
    var k := len;
    var residue := src % w;
    var j := 0;
    if residue != 0 && residue == dest % w {
      j := residue + 1;
      if j > len {
        j := len;
      }
    }
    CopyDown(m, dest, src, k, 1, j, len, s);
    k := k - j;
    j := Words(k, w);
    CopyDown(m, dest, src, k, w, j, len, s);
    k := k - w * j;
    CopyDown(m, dest, src, k, 1, k, len, s);
  }

  /** What that means byte by byte: the destination holds what the source held, and nothing
      else has changed. */
  lemma MovedAt(s: seq<int>, dest: nat, src: nat, len: nat, x: nat)
    requires dest + len <= |s| && src + len <= |s| && x < |s|
    ensures |Moved(s, dest, src, 0, len)| == |s|
    ensures dest <= x < dest + len ==> Moved(s, dest, src, 0, len)[x] == s[src + (x - dest)]
    ensures x < dest || dest + len <= x ==> Moved(s, dest, src, 0, len)[x] == s[x]
  {
  }
}
