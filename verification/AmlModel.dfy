/** One parse state of the AML parser on values: what its path, buffer and limit stacks mean
    to each other, and which package spans it has closed. */
module AmlModel {

  /** The elements that the parser treats specially; all others are terms of the grammar. */
  datatype Elem = OK | PkgLength | Len0 | Len1 | Len2 | Len3 | PkgPush | PkgIgnore | PkgEnd | Term(id: nat)

  /** What the production table says about a term: alternatives to try, a byte to accept or
      to refuse, or nothing at all. */
  datatype Action = Expand(alts: seq<seq<Elem>>) | Shift | Fail | Skip

  /** Productions may depend on the path, the next byte and the captured name. */
  type Table = (nat, seq<Elem>, int, bool) -> Action

  /** The net effect of an element on the depth of the limit stack. */
  function Delta(e: Elem): int {
    match e
    case PkgLength | PkgPush => 1
    case PkgIgnore | PkgEnd => -1
    case _ => 0
  }

  function Sum(b: seq<Elem>): int {
    if b == [] then 0 else Delta(b[0]) + Sum(b[1..])
  }

  /** Working through `b` never takes a limit off an empty stack of depth `n`. */
  ghost predicate Safe(n: int, b: seq<Elem>)
    decreases |b|
  {
    n >= 0 && (b == [] || Safe(n + Delta(b[0]), b[1..]))
  }

  ghost predicate Plain(e: Elem) {
    e.Term? || e == PkgLength || e == PkgIgnore || e == PkgEnd
  }

  /** A production is balanced: it closes the packages it opens, in that order. */
  ghost predicate Balanced(alt: seq<Elem>) {
    Safe(0, alt) && Sum(alt) == 0 && forall i :: 0 <= i < |alt| ==> Plain(alt[i])
  }

  ghost predicate TableOk(table: Table) {
    forall id, path, byte, name ::
      table(id, path, byte, name).Expand? ==>
        forall i :: 0 <= i < |table(id, path, byte, name).alts| ==> Balanced(table(id, path, byte, name).alts[i])
  }

  lemma TableAlts(table: Table, id: nat, path: seq<Elem>, byte: int, name: bool)
    requires TableOk(table) && table(id, path, byte, name).Expand?
    ensures forall i :: 0 <= i < |table(id, path, byte, name).alts| ==> Balanced(table(id, path, byte, name).alts[i])
  {
  }

  function CountOk(b: seq<Elem>): nat {
    if b == [] then 0 else (if b[0] == OK then 1 else 0) + CountOk(b[1..])
  }

  // ---------------------------------------------------------------- package lengths

  function Byte(input: seq<int>, i: int): int {
    if 0 <= i < |input| then input[i] else 0
  }

  /** Section 20.2.4 of the ACPI Specification: the two top bits of the lead byte give the
      number of bytes that follow it. */
  function Decode(input: seq<int>, s: int): int {
    var b := Byte(input, s);
    match b / 64
    case 0 => b % 64
    case 1 => b % 16 + 16 * Byte(input, s + 1)
    case 2 => b % 16 + 16 * Byte(input, s + 1) + 0x1000 * Byte(input, s + 2)
    case _ => b % 16 + 16 * Byte(input, s + 1) + 0x1000 * Byte(input, s + 2) + 0x10_0000 * Byte(input, s + 3)
  }

  /** What the parser has computed after `k` bytes of a length of `n + 1` bytes. */
  function Partial(input: seq<int>, s: int, k: nat): int {
    match k
    case 1 => Byte(input, s)
    case 2 => Byte(input, s) % 16 + 16 * Byte(input, s + 1)
    case 3 => Byte(input, s) % 16 + 16 * Byte(input, s + 1) + 0x1000 * Byte(input, s + 2)
    case _ => Byte(input, s) % 16 + 16 * Byte(input, s + 1) + 0x1000 * Byte(input, s + 2) + 0x10_0000 * Byte(input,
      s + 3)
  }

  /** The production of `PkgLength` for a lead byte with `n` bytes to follow. */
  function Group(n: nat): seq<Elem>
    requires n <= 3
  {
    [Len0] + [Len1, Len2, Len3][..n] + [PkgPush]
  }

  /** No element of a length group. */
  ghost predicate Grouped(b: seq<Elem>) {
    forall i :: 0 <= i < |b| ==> Plain(b[i]) || b[i] == OK
  }

  // ---------------------------------------------------------------- spans

  datatype Span = Span(start: int, end: int)

  /** Whether the parser is inside a package length: `k` of its `n + 1` bytes are read. */
  datatype InLen = No | Yes(n: nat, k: nat)

  /** The packages of a parse state: the starts of the open ones, innermost first, and the
      spans of the closed ones. */
  datatype Hist = Hist(open: seq<int>, closed: seq<Span>, len: InLen)

  ghost predicate Apart(x: Span, y: Span) {
    || x.end <= y.start || y.end <= x.start
    || (x.start <= y.start && y.end <= x.end) || (y.start <= x.start && x.end <= y.end)
  }

  ghost predicate Declared(input: seq<int>, x: Span) {
    x.end == x.start + Decode(input, x.start)
  }

  /** Open packages started in the order of the stack. */
  ghost predicate OpenOk(input: seq<int>, limit: seq<int>, open: seq<int>, bound: int) {
    && |open| == |limit|
    && (forall i :: 0 <= i < |limit| ==> Declared(input, Span(open[i], limit[i])) && open[i] <= bound)
    && (forall i, j :: 0 <= i < j < |open| ==> open[j] <= open[i])
  }

  /** Closed packages have the length they declare and are nested or disjoint. */
  ghost predicate ClosedOk(input: seq<int>, open: seq<int>, closed: seq<Span>, bound: int) {
    && (forall i :: 0 <= i < |closed| ==> Declared(input, closed[i]) && closed[i].end <= bound)
    && (forall i, j :: 0 <= i < j < |closed| ==> Apart(closed[i], closed[j]))
    && (forall i, j :: 0 <= i < |closed| && 0 <= j < |open| ==> closed[i].end <= open[j] || open[j] <= closed[i].start)
  }

  /** What is left of a length, and what it amounts to so far. */
  ghost predicate InLength(input: seq<int>, b: seq<Elem>, pkgc: int, pkglen: int, n: nat, k: nat, pos: int) {
    && k <= n + 1 <= 4 && n == Byte(input, pos - k) / 64
    && (k > 0 ==> pkgc == pos - k && pkglen == Partial(input, pkgc, k))
    && n + 2 - k <= |b| && b[..n + 2 - k] == Group(n)[k..] && Grouped(b[n + 2 - k..])
  }

  function Bound(h: Hist, pos: int): int {
    if h.len.No? then pos else pos - h.len.k
  }

  /** The stacks and fields of a parse state. */
  datatype State = State(path: seq<Elem>, buf: seq<Elem>, limit: seq<int>, pkgc: int, pkglen: int)

  /** A parse state at position `pos`: each `OK` in its buffer has its path element, the
      limits are just those that the buffer will take off, and the packages are in order. */
  ghost predicate StateOk(input: seq<int>, s: State, h: Hist, pos: int) {
    && CountOk(s.buf) == |s.path| && Safe(|s.limit|, s.buf) && |s.limit| + Sum(s.buf) == 0
    && (if h.len.No? then Grouped(s.buf) else InLength(input, s.buf, s.pkgc, s.pkglen, h.len.n, h.len.k, pos))
    && OpenOk(input, s.limit, h.open, Bound(h, pos)) && ClosedOk(input, h.open, h.closed, Bound(h, pos))
  }

  // ---------------------------------------------------------------- sums

  lemma {:induction false} SumAppend(a: seq<Elem>, b: seq<Elem>)
    ensures Sum(a + b) == Sum(a) + Sum(b)
    decreases |a|
  {
    if a == [] {
      assert a + b == b;
    } else {
      SumAppend(a[1..], b);
      assert (a + b)[1..] == a[1..] + b;
    }
  }

  lemma {:induction false} CountAppend(a: seq<Elem>, b: seq<Elem>)
    ensures CountOk(a + b) == CountOk(a) + CountOk(b)
    decreases |a|
  {
    if a == [] {
      assert a + b == b;
    } else {
      CountAppend(a[1..], b);
      assert (a + b)[1..] == a[1..] + b;
    }
  }

  lemma {:induction false} SafeAppend(n: int, a: seq<Elem>, b: seq<Elem>)
    requires Safe(n, a) && Safe(n + Sum(a), b)
    ensures Safe(n, a + b)
    decreases |a|
  {
    if a == [] {
      assert a + b == b;
    } else {
      SafeAppend(n + Delta(a[0]), a[1..], b);
      assert (a + b)[1..] == a[1..] + b;
    }
  }

  lemma {:induction false} SafeMore(m: int, n: int, b: seq<Elem>)
    requires Safe(m, b) && m <= n
    ensures Safe(n, b)
    decreases |b|
  {
    if b != [] {
      SafeMore(m + Delta(b[0]), n + Delta(b[0]), b[1..]);
    }
  }

  lemma {:induction false} NoCount(b: seq<Elem>)
    requires forall i :: 0 <= i < |b| ==> b[i] != OK
    ensures CountOk(b) == 0
    decreases |b|
  {
    if b != [] {
      NoCount(b[1..]);
    }
  }

  lemma HeadOf(s: State)
    requires s.buf != []
    ensures CountOk(s.buf) == (if s.buf[0] == OK then 1 else 0) + CountOk(s.buf[1..])
    ensures Safe(|s.limit|, s.buf) <==> Safe(|s.limit| + Delta(s.buf[0]), s.buf[1..])
  {
    if Safe(|s.limit| + Delta(s.buf[0]), s.buf[1..]) {
      assert |s.limit| >= 0;
    }
  }

  // ---------------------------------------------------------------- the moves of a state

  /** The front element is gone and has no effect on the other stacks. */
  lemma Skipped(input: seq<int>, s: State, h: Hist, pos: int, pos': int)
    requires StateOk(input, s, h, pos) && s.buf != [] && s.buf[0].Term? && h.len.No? && pos <= pos'
    ensures StateOk(input, s.(buf := s.buf[1..]), h, pos')
  {
    HeadOf(s);
  }

  /** A term gives way to one of its productions, and is noted on the path unless it is on
      top of it already. */
  lemma Expanded(input: seq<int>, s: State, h: Hist, pos: int, alt: seq<Elem>, note: bool)
    requires StateOk(input, s, h, pos) && s.buf != [] && s.buf[0].Term? && h.len.No? && Balanced(alt)
    ensures StateOk(input,
      s.(path := (if note then [s.buf[0]] else []) + s.path, buf := alt + (if note then [OK] else []) + s.buf[1..]), h,
      pos)
  {
    hide Sum, Safe, CountOk, OpenOk, ClosedOk;
    SumHead(s.buf);
    HeadOf(s);
    NoCount(alt);
    SafeMore(0, |s.limit|, alt);
    Replaced(|s.limit|, alt, note, s.buf[1..]);
  }

  lemma SumHead(b: seq<Elem>)
    requires b != []
    ensures Sum(b) == Delta(b[0]) + Sum(b[1..])
  {
  }

  /** Something balanced or not stands in front of the rest, with a path mark between. */
  lemma Replaced(n: int, front: seq<Elem>, note: bool, rest: seq<Elem>)
    requires Safe(n, front) && CountOk(front) == 0 && Safe(n + Sum(front), rest)
    ensures var b := front + (if note then [OK] else []) + rest;
            && Safe(n, b) && Sum(b) == Sum(front) + Sum(rest) && CountOk(b) == CountOk(rest) + if note then 1 else 0
  {
    hide Sum, Safe, CountOk;
    Marked(n + Sum(front), note, rest);
    Put(n, front, (if note then [OK] else []) + rest);
    Regrouped(front, if note then [OK] else [], rest);
  }

  lemma Put(n: int, front: seq<Elem>, back: seq<Elem>)
    requires Safe(n, front) && CountOk(front) == 0 && Safe(n + Sum(front), back)
    ensures Safe(n, front + back) && Sum(front + back) == Sum(front) + Sum(back)
      && CountOk(front + back) == CountOk(back)
  {
    hide Sum, Safe, CountOk;
    CountAppend(front, back);
    SumAppend(front, back);
    SafeAppend(n, front, back);
  }

  lemma Regrouped(a: seq<Elem>, b: seq<Elem>, c: seq<Elem>)
    ensures a + b + c == a + (b + c)
  {
  }

  lemma Marked(n: int, note: bool, rest: seq<Elem>)
    requires Safe(n, rest)
    ensures var ok := if note then [OK] else [];
            && Safe(n, ok + rest) && Sum(ok + rest) == Sum(rest)
            && CountOk(ok + rest) == CountOk(rest) + if note then 1 else 0
  {
    if note {
      assert ([OK] + rest)[1..] == rest;
    } else {
      assert [] + rest == rest;
    }
  }

  lemma GroupIs(n: nat)
    requires n <= 3
    ensures Group(n) == match n
                        case 0 => [Len0, PkgPush]
                        case 1 => [Len0, Len1, PkgPush]
                        case 2 => [Len0, Len1, Len2, PkgPush]
                        case _ => [Len0, Len1, Len2, Len3, PkgPush]
  {
  }

  lemma GroupSums(n: nat)
    requires n <= 3
    ensures |Group(n)| == n + 2 && Sum(Group(n)) == 1 && Safe(0, Group(n)) && CountOk(Group(n)) == 0
  {
    GroupIs(n);
    hide Group;
    match n
    case 0 =>
      assert [Len0, PkgPush][1..] == [PkgPush];
    case 1 =>
      assert [Len0, Len1, PkgPush][1..] == [Len1, PkgPush] && [Len1, PkgPush][1..] == [PkgPush];
    case 2 =>
      assert [Len0, Len1, Len2, PkgPush][1..] == [Len1, Len2, PkgPush];
      assert [Len1, Len2, PkgPush][1..] == [Len2, PkgPush] && [Len2, PkgPush][1..] == [PkgPush];
    case 3 =>
      assert [Len0, Len1, Len2, Len3, PkgPush][1..] == [Len1, Len2, Len3, PkgPush];
      assert [Len1, Len2, Len3, PkgPush][1..] == [Len2, Len3, PkgPush];
      assert [Len2, Len3, PkgPush][1..] == [Len3, PkgPush] && [Len3, PkgPush][1..] == [PkgPush];
  }

  /** A package length gives way to the group that its lead byte calls for. */
  lemma ExpandedLength(input: seq<int>, s: State, h: Hist, pos: int, n: nat, note: bool)
    requires StateOk(input, s, h, pos) && s.buf != [] && s.buf[0] == PkgLength && h.len.No? && n <= 3
      && n == Byte(input, pos) / 64
    ensures StateOk(input,
      s.(path := (if note then [s.buf[0]] else []) + s.path,
      buf := Group(n) + (if note then [OK] else []) + s.buf[1..]),
                    h.(len := Yes(n, 0)), pos)
  {
    hide Sum, Safe, CountOk, OpenOk, ClosedOk, Group, Partial;
    var ok, rest, g := if note then [OK] else [], s.buf[1..], Group(n);
    SumHead(s.buf);
    HeadOf(s);
    GroupSums(n);
    SafeMore(0, |s.limit|, g);
    Replaced(|s.limit|, g, note, rest);
    var b := g + ok + rest;
    assert b[..n + 2] == g && b[n + 2..] == ok + rest;
  }

  function LenAt(k: nat): Elem {
    match k
    case 0 => Len0
    case 1 => Len1
    case 2 => Len2
    case _ => Len3
  }

  /** The next byte of a length. */
  lemma LengthRead(input: seq<int>, s: State, h: Hist, pos: int, k: nat, pkglen: int)
    requires StateOk(input, s, h, pos) && s.buf != [] && h.len.Yes? && k <= 3 && s.buf[0] == LenAt(k)
    requires pkglen == Partial(input, if k == 0 then pos else s.pkgc, k + 1)
    ensures h.len.k == k
    ensures StateOk(input, s.(buf := s.buf[1..], pkgc := if k == 0 then pos else s.pkgc, pkglen := pkglen),
      h.(len := Yes(h.len.n, k + 1)), pos + 1)
  {
    hide OpenOk, ClosedOk;
    HeadOf(s);
    var n := h.len.n;
    GroupFront(s.buf, n, h.len.k);
    InGroup(n, h.len.k);
    FrontOff(s.buf, n, k);
  }

  /** What stands where in a group. */
  lemma InGroup(n: nat, k: nat)
    requires k <= n + 1 <= 4
    ensures |Group(n)| == n + 2 && Group(n)[k] == if k <= n then LenAt(k) else PkgPush
  {
  }

  lemma GroupFront(b: seq<Elem>, n: nat, k: nat)
    requires k <= n + 1 <= 4 && n + 2 - k <= |b| && b[..n + 2 - k] == Group(n)[k..]
    ensures b != [] && b[0] == Group(n)[k]
  {
    hide Group;
    InGroup(n, k);
    assert Group(n)[k..][0] == b[..n + 2 - k][0];
  }

  lemma FrontOff(b: seq<Elem>, n: nat, k: nat)
    requires k <= n <= 3 && n + 2 - k <= |b| && b[..n + 2 - k] == Group(n)[k..]
    ensures b[1..][..n + 1 - k] == Group(n)[k + 1..] && b[1..][n + 1 - k..] == b[n + 2 - k..]
  {
    hide Group;
    InGroup(n, k);
    assert b[1..][..n + 1 - k] == b[..n + 2 - k][1..];
    assert Group(n)[k..][1..] == Group(n)[k + 1..];
  }

  lemma LengthDone(input: seq<int>, s: State, h: Hist, pos: int)
    requires StateOk(input, s, h, pos) && s.buf != [] && s.buf[0] == PkgPush && 0 <= Byte(input, s.pkgc) < 256
    ensures h.len.Yes? && h.len.k == h.len.n + 1 && s.pkgc == pos - h.len.k && s.pkglen == Decode(input, s.pkgc)
      && Grouped(s.buf[1..])
  {
    GroupFront(s.buf, h.len.n, h.len.k);
    InGroup(h.len.n, h.len.k);
  }

  /** A package is opened: it starts at the lead byte of its length. */
  lemma Pushed(input: seq<int>, s: State, h: Hist, pos: int)
    requires StateOk(input, s, h, pos) && s.buf != [] && s.buf[0] == PkgPush && 0 <= Byte(input, s.pkgc) < 256
    ensures StateOk(input, s.(buf := s.buf[1..], limit := [s.pkgc + s.pkglen] + s.limit),
      Hist([s.pkgc] + h.open, h.closed, No), pos)
  {
    LengthDone(input, s, h, pos);
    HeadOf(s);
  }

  /** The innermost limit is dropped. */
  lemma Ignored(input: seq<int>, s: State, h: Hist, pos: int)
    requires StateOk(input, s, h, pos) && s.buf != [] && s.buf[0] == PkgIgnore
    ensures s.limit != [] && h.open != []
      && StateOk(input, s.(buf := s.buf[1..], limit := s.limit[1..]), h.(open := h.open[1..]), pos)
  {
    NotInLength(input, s, h, pos);
    HeadOf(s);
  }

  /** The innermost package ends where its length says. */
  lemma Ended(input: seq<int>, s: State, h: Hist, pos: int)
    requires StateOk(input, s, h, pos) && s.buf != [] && s.buf[0] == PkgEnd
    ensures s.limit != [] && h.open != []
    ensures s.limit[0] == pos ==>
      StateOk(input, s.(buf := s.buf[1..], limit := s.limit[1..]),
        Hist(h.open[1..], h.closed + [Span(h.open[0], pos)], h.len), pos)
  {
    NotInLength(input, s, h, pos);
    HeadOf(s);
    if s.limit[0] == pos {
      ClosedMore(input, s.limit, h, pos);
    }
  }

  lemma ClosedMore(input: seq<int>, limit: seq<int>, h: Hist, pos: int)
    requires limit != [] && OpenOk(input, limit, h.open, pos) && ClosedOk(input, h.open, h.closed, pos)
      && limit[0] == pos
    ensures OpenOk(input, limit[1..], h.open[1..], pos)
      && ClosedOk(input, h.open[1..], h.closed + [Span(h.open[0], pos)], pos)
  {
    var x, closed := Span(h.open[0], pos), h.closed + [Span(h.open[0], pos)];
    forall i | 0 <= i < |h.closed| ensures Apart(closed[i], x) {
      assert h.closed[i].end <= h.open[0] || h.open[0] <= h.closed[i].start;
    }
  }

  /** An `OK` takes its element off the path. */
  lemma PathPopped(input: seq<int>, s: State, h: Hist, pos: int)
    requires StateOk(input, s, h, pos) && s.buf != [] && s.buf[0] == OK
    ensures s.path != [] && StateOk(input, s.(buf := s.buf[1..], path := s.path[1..]), h, pos)
  {
    NotInLength(input, s, h, pos);
    HeadOf(s);
  }

  lemma NotInLength(input: seq<int>, s: State, h: Hist, pos: int)
    requires StateOk(input, s, h, pos) && s.buf != [] && (Plain(s.buf[0]) || s.buf[0] == OK)
    ensures h.len.No?
  {
    if h.len.Yes? {
      LengthFront(s.buf, h.len.n, h.len.k);
    }
  }

  lemma LengthFront(b: seq<Elem>, n: nat, k: nat)
    requires k <= n + 1 <= 4 && n + 2 - k <= |b| && b[..n + 2 - k] == Group(n)[k..]
    ensures b != [] && !Plain(b[0]) && b[0] != OK
  {
    GroupFront(b, n, k);
    InGroup(n, k);
  }
}
