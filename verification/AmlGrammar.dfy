/** What the AML parser recognises, said without its steps: derivation trees over the production
    table.  A tree derives an element from the bytes at a position, and where the input ends the
    rest of the tree stays open. */
module AmlGrammar {
  import opened AmlModel
  import opened AmlRuns

  /** How an element has been derived: not at all, because the input has ended; from one byte;
      from nothing; by an alternative of its production; or as an element of a package. */
  datatype Tree = Open | Byte1 | Empty | Use(alt: seq<Elem>, kids: seq<Tree>) | Length | End | Ignore

  /** A position, and the ends of the packages that it is in, innermost first. */
  datatype Place = Nowhere | At(c: int, lim: seq<int>)

  /** Productions see the productions above them, of which one that uses itself counts once. */
  ghost function Under(path: seq<Elem>, e: Elem): seq<Elem> {
    if path != [] && path[0] == e then path else [e] + path
  }

  /** For some captured name, the table says `act` about the term. */
  ghost predicate Says(input: seq<int>, table: Table, path: seq<Elem>, c: int, e: Elem, act: Action) {
    e.Term? && exists name :: table(e.id, path, Byte(input, c), name) == act
  }

  ghost predicate Offers(input: seq<int>, table: Table, path: seq<Elem>, c: int, e: Elem, alt: seq<Elem>) {
    e.Term? && exists name ::
      table(e.id, path, Byte(input, c), name).Expand? && alt in table(e.id, path, Byte(input, c), name).alts
  }

  /** None of the `n` bytes from `c` on lies at the end of the innermost package. */
  ghost predicate Inside(lim: seq<int>, c: int, n: int) {
    lim != [] ==> !(c <= lim[0] < c + n)
  }

  /** Behind a package length, whose lead byte says how long it is itself. */
  ghost function BehindLength(input: seq<int>, c: int, lim: seq<int>): Place {
    var n := 1 + Byte(input, c) / 64;
    if c + n < |input| then if Inside(lim, c, n) then At(c + n, [c + Decode(input, c)] + lim) else Nowhere
    else if Inside(lim, c, |input| - c) then At(|input|, lim) else Nowhere
  }

  /** Where `t`, as a derivation of `e` from the place `x` on, ends. */
  ghost function Past(input: seq<int>, table: Table, path: seq<Elem>, x: Place, e: Elem, t: Tree): Place
    decreases t, 0
  {
    if x.Nowhere? then Nowhere
    else if x.c >= |input| then if t.Open? then x else Nowhere
    else
      match t
      case Open => Nowhere
      case Byte1 =>
        if Says(input, table, path, x.c, e, Shift) && Inside(x.lim, x.c, 1) then At(x.c + 1, x.lim) else Nowhere
      case Empty => if Says(input, table, path, x.c, e, Skip) then x else Nowhere
      case Use(alt, kids) =>
        if Offers(input, table, path, x.c, e, alt) && |kids| == |alt|
        then PastAll(input, table, Under(path, e), x, alt, kids) else Nowhere
      case Length => if e == PkgLength then BehindLength(input, x.c, x.lim) else Nowhere
      case End => if e == PkgEnd && x.lim != [] && x.lim[0] == x.c then At(x.c, x.lim[1..]) else Nowhere
      case Ignore => if e == PkgIgnore && x.lim != [] then At(x.c, x.lim[1..]) else Nowhere
  }

  ghost function PastAll(input: seq<int>, table: Table, path: seq<Elem>, x: Place, es: seq<Elem>, ts: seq<Tree>): Place
    requires |ts| == |es|
    decreases ts, |es|
  {
    if es == [] then x
    else PastAll(input, table, path, Past(input, table, path, x, es[0], ts[0]), es[1..], ts[1..])
  }

  /** The whole input can be derived from the start symbol, as far as it goes. */
  ghost predicate Derivation(input: seq<int>, table: Table, start: nat, t: Tree) {
    var y := Past(input, table, [], At(0, []), Term(start), t); y.At? && y.c == |input|
  }

  ghost predicate Derivable(input: seq<int>, table: Table, start: nat) {
    exists t :: Derivation(input, table, start, t)
  }

  /** The parser can get to the end of the input. */
  ghost predicate Reachable(input: seq<int>, table: Table, start: nat) {
    exists p :: p != [] && IsPath(input, table, start, p) && Last(p).c == |input|
  }

  // ---------------------------------------------------------------- buffers

  /** The buffer `buf` can be worked off from the place `x` on to the end of the input, with the
      trees `ts` for its elements; a path mark goes back to the path before. */
  ghost predicate Works(input: seq<int>, table: Table, path: seq<Elem>, x: Place, buf: seq<Elem>, ts: seq<Tree>)
    decreases |buf|
  {
    && x.At? && x.c <= |input|
    && (x.c < |input| ==>
          && buf != []
          && if buf[0] == OK then path != [] && Works(input, table, path[1..], x, buf[1..], ts)
             else
               && ts != []
               && Works(input, table, path, Past(input, table, path, x, buf[0], ts[0]), buf[1..], ts[1..]))
  }

  /** The first part of a buffer has trees of its own. */
  lemma {:induction false} Split(input: seq<int>, table: Table, path: seq<Elem>, x: Place, a: seq<Elem>, b: seq<Elem>,
                                 ts: seq<Tree>)
    returns (kids: seq<Tree>, rest: seq<Tree>)
    requires Works(input, table, path, x, a + b, ts) && OK !in a
    ensures |kids| == |a| && Works(input, table, path, PastAll(input, table, path, x, a, kids), b, rest)
    decreases |a|
  {
    if a == [] {
      assert a + b == b;
      kids, rest := [], ts;
    } else if x.c == |input| {
      kids := AllOpen(input, table, path, x, a);
      rest := [];
    } else {
      assert (a + b)[1..] == a[1..] + b;
      assert OK !in a[1..] && a[0] in a;
      var y := Past(input, table, path, x, a[0], ts[0]);
      kids, rest := Split(input, table, path, y, a[1..], b, ts[1..]);
      assert ([ts[0]] + kids)[1..] == kids;
      kids := [ts[0]] + kids;
    }
  }

  lemma {:induction false} AllOpen(input: seq<int>, table: Table, path: seq<Elem>, x: Place, es: seq<Elem>)
    returns (ts: seq<Tree>)
    requires x.At? && x.c == |input|
    ensures |ts| == |es| && PastAll(input, table, path, x, es, ts) == x
    decreases |es|
  {
    ts := [];
    if es != [] {
      var r := AllOpen(input, table, path, x, es[1..]);
      ts := [Open] + r;
      assert ts[1..] == r;
    }
  }

  // ---------------------------------------------------------------- from steps to trees

  ghost predicate Noted(path: seq<Elem>, e: Elem) {
    path == [] || path[0] != e
  }

  ghost function Mark(path: seq<Elem>, e: Elem): seq<Elem> {
    if Noted(path, e) then [OK] else []
  }

  /** Behind what an element has been derived to, its own path is back. */
  lemma Unmarked(input: seq<int>, table: Table, path: seq<Elem>, e: Elem, x: Place, rest: seq<Elem>, ts: seq<Tree>)
    requires Works(input, table, Under(path, e), x, Mark(path, e) + rest, ts)
    ensures Works(input, table, path, x, rest, ts)
  {
    if Noted(path, e) {
      assert ([OK] + rest)[1..] == rest && ([e] + path)[1..] == path;
    } else {
      assert [] + rest == rest;
    }
  }

  /** What a move does, by the element in front. */
  lemma MoveTerm(input: seq<int>, table: Table, x: Conf, y: Conf)
    requires Moves(input, table, x, y) && x.s.buf != [] && x.s.buf[0].Term?
    ensures var e, r := x.s.buf[0], x.s.(buf := x.s.buf[1..]);
            || (Says(input, table, x.s.path, x.c, e, Shift) && Inside(x.s.limit, x.c, 1) && y == Conf(r, x.c + 1))
            || (Says(input, table, x.s.path, x.c, e, Skip) && y == Conf(r, x.c))
            || (exists alt :: Offers(input, table, x.s.path, x.c, e, alt) && y == Conf(Derived(r, e, alt), x.c))
  {
    var name :| Successor(StepOutcome(input, table, x.s, x.c, name), x.c, y);
    var e, r := x.s.buf[0], x.s.(buf := x.s.buf[1..]);
    var act := table(e.id, x.s.path, Byte(input, x.c), name);
    if act.Expand? {
      var ss := TermOutcome(r, e, act, x.c).ss;
      var i :| 0 <= i < |ss| && ss[i] == y.s;
      assert act.alts[i] in act.alts && Offers(input, table, x.s.path, x.c, e, act.alts[i]);
    }
  }

  lemma MoveOther(input: seq<int>, table: Table, x: Conf, y: Conf)
    requires Moves(input, table, x, y)
    ensures x.s.buf != [] && 0 <= x.c < |input|
    ensures var r := x.s.(buf := x.s.buf[1..]);
            match x.s.buf[0]
            case OK => x.s.path != [] && y == Conf(r.(path := x.s.path[1..]), x.c)
            case PkgPush => y == Conf(r.(limit := [x.s.pkgc + x.s.pkglen] + x.s.limit), x.c)
            case PkgIgnore => x.s.limit != [] && y == Conf(r.(limit := x.s.limit[1..]), x.c)
            case PkgEnd => x.s.limit != [] && x.s.limit[0] == x.c && y == Conf(r.(limit := x.s.limit[1..]), x.c)
            case PkgLength =>
              0 <= Byte(input, x.c) / 64 <= 3 && y == Conf(Derived(r, PkgLength, Group(Byte(input, x.c) / 64)), x.c)
            case _ => true
  {
  }

  lemma MoveLength(input: seq<int>, table: Table, x: Conf, y: Conf, k: nat)
    requires Moves(input, table, x, y) && x.s.buf != [] && k <= 3 && x.s.buf[0] == LenAt(k)
    ensures var start := if k == 0 then x.c else x.s.pkgc;
            y == Conf(x.s.(buf := x.s.buf[1..], pkgc := start, pkglen := Partial(input, start, k + 1)), x.c + 1)
    ensures Inside(x.s.limit, x.c, 1)
  {
  }

  lemma GroupAt(n: nat, k: nat, v: seq<Elem>)
    requires k <= n + 1 && n <= 3
    ensures |Group(n)| == n + 2 && (Group(n)[k..] + v)[0] == (if k <= n then LenAt(k) else PkgPush)
    ensures (Group(n)[k..] + v)[1..] == Group(n)[k + 1..] + v
  {
    GroupIs(n);
  }

  /** `x` is in a package length that starts at `c`: `k` of its `n + 1` bytes have been read. */
  ghost predicate InGroup(input: seq<int>, x: Conf, c: int, n: nat, k: nat, v: seq<Elem>) {
    && n <= 3 && k <= n + 1 && n == Byte(input, c) / 64 && 0 <= c && x.c == c + k <= |input|
    && |Group(n)| == n + 2 && x.s.buf == Group(n)[k..] + v
    && (k > 0 ==> x.s.pkgc == c && x.s.pkglen == Partial(input, c, k))
  }

  lemma DecodePartial(input: seq<int>, c: int, n: nat)
    requires n <= 3 && n == Byte(input, c) / 64 && Bytes(input)
    ensures Partial(input, c, n + 1) == Decode(input, c)
  {
    ByteRange(input, c);
  }

  lemma {:induction false} LengthWalk(input: seq<int>, table: Table, start: nat, p: seq<Conf>, i: nat, c: int, n: nat,
                                      k: nat, v: seq<Elem>)
    returns (j: nat)
    requires IsPath(input, table, start, p) && Bytes(input) && Last(p).c == |input| && i < |p|
    requires InGroup(input, p[i], c, n, k, v)
    ensures Inside(p[i].s.limit, c + k, (if c + n + 1 < |input| then c + n + 1 else |input|) - (c + k))
    ensures i <= j < |p| && (c + n + 1 < |input| ==>
      && i < j && p[j].c == c + n + 1 && p[j].s.path == p[i].s.path && p[j].s.buf == v
      && p[j].s.limit == [c + Decode(input, c)] + p[i].s.limit)
    decreases |p| - i
  {
    hide Decode, Partial, Group, Moves, LenAt;
    j := i;
    if p[i].c < |input| {
      assert Moves(input, table, p[i], p[i + 1]);
      GroupAt(n, k, v);
      if k <= n {
        MoveLength(input, table, p[i], p[i + 1], k);
        j := LengthWalk(input, table, start, p, i + 1, c, n, k + 1, v);
      } else {
        MoveOther(input, table, p[i], p[i + 1]);
        DecodePartial(input, c, n);
        assert Group(n)[n + 2..] + v == v;
        j := i + 1;
      }
    }
  }

  /** What is left of a path can be read as trees for what is in the buffer. */
  lemma {:induction false} Sound(input: seq<int>, table: Table, start: nat, p: seq<Conf>, i: nat)
    returns (ts: seq<Tree>)
    requires IsPath(input, table, start, p) && Bytes(input) && TableOk(table) && Last(p).c == |input|
    requires i < |p| && p[i].c <= |input| && Grouped(p[i].s.buf)
    ensures Works(input, table, p[i].s.path, At(p[i].c, p[i].s.limit), p[i].s.buf, ts)
    decreases |p| - i, 1
  {
    hide Past, Works, Moves, Derived, Grouped, TableOk, Bytes, BehindLength;
    var x := p[i];
    if x.c == |input| {
      ts := [];
      WorksEnd(input, table, x.s.path, At(x.c, x.s.limit), x.s.buf, ts);
      return;
    }
    var y := p[i + 1];
    assert Moves(input, table, x, y);
    MoveOther(input, table, x, y);
    GroupedTail(x.s.buf);
    match x.s.buf[0]
    case Term(_) => ts := SoundTerm(input, table, start, p, i);
    case PkgLength => ts := SoundLength(input, table, start, p, i);
    case OK =>
      ts := Sound(input, table, start, p, i + 1);
      WorksMark(input, table, x.s.path, At(x.c, x.s.limit), x.s.buf, ts);
    case PkgEnd =>
      ts := Sound(input, table, start, p, i + 1);
      PastPop(input, table, x.s.path, x.c, x.s.limit);
      ts := WorksFirst(input, table, x.s.path, At(x.c, x.s.limit), x.s.buf, End, ts);
    case PkgIgnore =>
      ts := Sound(input, table, start, p, i + 1);
      PastPop(input, table, x.s.path, x.c, x.s.limit);
      ts := WorksFirst(input, table, x.s.path, At(x.c, x.s.limit), x.s.buf, Ignore, ts);
    case _ => NotGrouped(x.s.buf);
  }

  lemma {:induction false} SoundTerm(input: seq<int>, table: Table, start: nat, p: seq<Conf>, i: nat)
    returns (ts: seq<Tree>)
    requires IsPath(input, table, start, p) && Bytes(input) && TableOk(table) && Last(p).c == |input|
    requires i < |p| - 1 && 0 <= p[i].c < |input| && Grouped(p[i].s.buf) && p[i].s.buf != [] && p[i].s.buf[0].Term?
    ensures Works(input, table, p[i].s.path, At(p[i].c, p[i].s.limit), p[i].s.buf, ts)
    decreases |p| - i, 0
  {
    hide Past, Works, Moves, Grouped, TableOk, Bytes, IsPath, Offers;
    var x, y := p[i], p[i + 1];
    var e, rest, here := x.s.buf[0], x.s.buf[1..], At(x.c, x.s.limit);
    PathMoves(input, table, start, p, i);
    MoveTerm(input, table, x, y);
    GroupedTail(x.s.buf);
    if Says(input, table, x.s.path, x.c, e, Shift) && Inside(x.s.limit, x.c, 1)
      && y == Conf(x.s.(buf := rest), x.c + 1) {
      ts := Sound(input, table, start, p, i + 1);
      PastLeaf(input, table, x.s.path, x.c, x.s.limit, e);
      ts := WorksFirst(input, table, x.s.path, here, x.s.buf, Byte1, ts);
    } else if Says(input, table, x.s.path, x.c, e, Skip) && y == Conf(x.s.(buf := rest), x.c) {
      ts := Sound(input, table, start, p, i + 1);
      PastLeaf(input, table, x.s.path, x.c, x.s.limit, e);
      ts := WorksFirst(input, table, x.s.path, here, x.s.buf, Empty, ts);
    } else {
      var alt :| Offers(input, table, x.s.path, x.c, e, alt)
        && y == Conf(Derived(x.s.(buf := rest), e, alt), x.c);
      OfferedPlain(input, table, x.s.path, x.c, e, alt);
      DerivedIs(x.s.(buf := rest), e, alt);
      GroupedDerived(alt, Mark(x.s.path, e), rest);
      ts := Sound(input, table, start, p, i + 1);
      var kids, r := Split(input, table, Under(x.s.path, e), here, alt, Mark(x.s.path, e) + rest, ts);
      var z := PastAll(input, table, Under(x.s.path, e), here, alt, kids);
      Unmarked(input, table, x.s.path, e, z, rest, r);
      PastUse(input, table, x.s.path, here, e, alt, kids);
      ts := WorksFirst(input, table, x.s.path, here, x.s.buf, Use(alt, kids), r);
    }
  }

  lemma {:induction false} SoundLength(input: seq<int>, table: Table, start: nat, p: seq<Conf>, i: nat)
    returns (ts: seq<Tree>)
    requires IsPath(input, table, start, p) && Bytes(input) && TableOk(table) && Last(p).c == |input|
    requires i < |p| - 1 && 0 <= p[i].c < |input| && Grouped(p[i].s.buf) && p[i].s.buf != []
      && p[i].s.buf[0] == PkgLength
    ensures Works(input, table, p[i].s.path, At(p[i].c, p[i].s.limit), p[i].s.buf, ts)
    decreases |p| - i, 0
  {
    hide Past, Works, Moves, Grouped, TableOk, Bytes, IsPath, Group, Decode;
    var x := p[i];
    var rest, here, n := x.s.buf[1..], At(x.c, x.s.limit), Byte(input, x.c) / 64;
    PathMoves(input, table, start, p, i);
    MoveOther(input, table, x, p[i + 1]);
    GroupedTail(x.s.buf);
    DerivedIs(x.s.(buf := rest), PkgLength, Group(n));
    GroupAt(n, 0, Mark(x.s.path, PkgLength) + rest);
    assert Group(n)[0..] == Group(n);
    var j := LengthWalk(input, table, start, p, i + 1, x.c, n, 0, Mark(x.s.path, PkgLength) + rest);
    var y := BehindLength(input, x.c, x.s.limit);
    PastLength(input, table, x.s.path, here);
    if x.c + n + 1 < |input| {
      assert p[j].s.buf == [] + Mark(x.s.path, PkgLength) + rest;
      GroupedDerived([], Mark(x.s.path, PkgLength), rest);
      ts := Sound(input, table, start, p, j);
      Unmarked(input, table, x.s.path, PkgLength, y, rest, ts);
    } else {
      ts := [];
      WorksEnd(input, table, x.s.path, y, rest, ts);
    }
    ts := WorksFirst(input, table, x.s.path, here, x.s.buf, Length, ts);
  }

  // The rules of trees and buffers, one by one.

  lemma PathMoves(input: seq<int>, table: Table, start: nat, p: seq<Conf>, i: nat)
    requires IsPath(input, table, start, p) && i < |p| - 1
    ensures Moves(input, table, p[i], p[i + 1])
  {
  }

  lemma WorksEnd(input: seq<int>, table: Table, path: seq<Elem>, x: Place, buf: seq<Elem>, ts: seq<Tree>)
    requires x.At? && x.c == |input|
    ensures Works(input, table, path, x, buf, ts)
  {
  }

  lemma WorksMark(input: seq<int>, table: Table, path: seq<Elem>, x: Place, buf: seq<Elem>, ts: seq<Tree>)
    requires path != [] && buf != [] && buf[0] == OK && Works(input, table, path[1..], x, buf[1..], ts)
    ensures Works(input, table, path, x, buf, ts)
  {
  }

  lemma WorksFirst(input: seq<int>, table: Table, path: seq<Elem>, x: Place, buf: seq<Elem>, t: Tree, ts: seq<Tree>)
    returns (us: seq<Tree>)
    requires x.At? && x.c < |input| && buf != [] && buf[0] != OK
    requires Works(input, table, path, Past(input, table, path, x, buf[0], t), buf[1..], ts)
    ensures us == [t] + ts && Works(input, table, path, x, buf, us)
  {
    us := [t] + ts;
    assert us[1..] == ts;
  }

  lemma PastPop(input: seq<int>, table: Table, path: seq<Elem>, c: int, lim: seq<int>)
    requires lim != [] && c < |input|
    ensures Past(input, table, path, At(c, lim), PkgIgnore, Ignore) == At(c, lim[1..])
    ensures lim[0] == c ==> Past(input, table, path, At(c, lim), PkgEnd, End) == At(c, lim[1..])
  {
  }

  lemma PastLeaf(input: seq<int>, table: Table, path: seq<Elem>, c: int, lim: seq<int>, e: Elem)
    requires c < |input|
    ensures Says(input, table, path, c, e, Shift) && Inside(lim, c, 1) ==>
      Past(input, table, path, At(c, lim), e, Byte1) == At(c + 1, lim)
    ensures Says(input, table, path, c, e, Skip) ==> Past(input, table, path, At(c, lim), e, Empty) == At(c, lim)
  {
  }

  lemma PastUse(input: seq<int>, table: Table, path: seq<Elem>, x: Place, e: Elem, alt: seq<Elem>, kids: seq<Tree>)
    requires x.At? && x.c < |input| && Offers(input, table, path, x.c, e, alt) && |kids| == |alt|
    ensures Past(input, table, path, x, e, Use(alt, kids)) == PastAll(input, table, Under(path, e), x, alt, kids)
  {
  }

  lemma PastLength(input: seq<int>, table: Table, path: seq<Elem>, x: Place)
    requires x.At? && x.c < |input|
    ensures Past(input, table, path, x, PkgLength, Length) == BehindLength(input, x.c, x.lim)
  {
  }

  lemma DerivedIs(s: State, e: Elem, alt: seq<Elem>)
    ensures Derived(s, e, alt) == State(Under(s.path, e), alt + (Mark(s.path, e) + s.buf), s.limit, 0, 0)
  {
    assert alt + Mark(s.path, e) + s.buf == alt + (Mark(s.path, e) + s.buf);
    assert [] + s.path == s.path;
  }

  lemma OfferedPlain(input: seq<int>, table: Table, path: seq<Elem>, c: int, e: Elem, alt: seq<Elem>)
    requires TableOk(table) && Offers(input, table, path, c, e, alt)
    ensures OK !in alt && Grouped(alt)
  {
    var name :| table(e.id, path, Byte(input, c), name).Expand?
      && alt in table(e.id, path, Byte(input, c), name).alts;
    TableAlts(table, e.id, path, Byte(input, c), name);
    assert Balanced(alt);
  }

  lemma GroupedTail(b: seq<Elem>)
    requires Grouped(b) && b != []
    ensures Grouped(b[1..])
  {
  }

  lemma NotGrouped(b: seq<Elem>)
    requires b != [] && !Plain(b[0]) && b[0] != OK
    ensures !Grouped(b)
  {
  }

  lemma GroupedDerived(a: seq<Elem>, m: seq<Elem>, b: seq<Elem>)
    requires Grouped(a) && Grouped(b) && (m == [] || m == [OK])
    ensures Grouped(a + m + b) && Grouped(a + (m + b))
  {
  }

  /** What the parser accepts has been derived. */
  lemma Accepted(input: seq<int>, table: Table, start: nat, p: seq<Conf>)
    requires IsPath(input, table, start, p) && Bytes(input) && TableOk(table) && Last(p).c == |input|
    ensures Derivable(input, table, start)
  {
    hide Past, Grouped, TableOk, Bytes;
    var buf := p[0].s.buf;
    assert Grouped(buf) by { StartGrouped(start); }
    var ts := Sound(input, table, start, p, 0);
    var x := At(0, []);
    if |input| == 0 {
      OpenEnd(input, table, start);
    } else {
      assert Works(input, table, [], Past(input, table, [], x, Term(start), ts[0]), buf[1..], ts[1..]);
      assert buf[1..] == [];
      assert Derivation(input, table, start, ts[0]);
    }
  }

  lemma StartGrouped(start: nat)
    ensures Grouped(StartState(start).buf)
  {
  }

  lemma OpenEnd(input: seq<int>, table: Table, start: nat)
    requires |input| == 0
    ensures Derivation(input, table, start, Open)
  {
  }

  // ---------------------------------------------------------------- from trees to steps

  /** A run of moves from `x` to `y`. */
  ghost predicate Run(input: seq<int>, table: Table, q: seq<Conf>, x: Conf, y: Conf) {
    && q != [] && q[0] == x && Last(q) == y
    && forall i :: 0 <= i < |q| - 1 ==> Moves(input, table, q[i], q[i + 1])
  }

  lemma RunOne(input: seq<int>, table: Table, x: Conf, y: Conf) returns (q: seq<Conf>)
    requires Moves(input, table, x, y)
    ensures Run(input, table, q, x, y)
  {
    q := [x, y];
  }

  lemma RunNone(input: seq<int>, table: Table, x: Conf) returns (q: seq<Conf>)
    ensures Run(input, table, q, x, x)
  {
    q := [x];
  }

  lemma RunJoin(input: seq<int>, table: Table, q: seq<Conf>, r: seq<Conf>, x: Conf, y: Conf, z: Conf)
    returns (s: seq<Conf>)
    requires Run(input, table, q, x, y) && Run(input, table, r, y, z)
    ensures Run(input, table, s, x, z)
  {
    hide Moves;
    s := q + r[1..];
    forall i | 0 <= i < |s| - 1 ensures Moves(input, table, s[i], s[i + 1]) {
      if i == |q| - 1 {
        assert s[i] == r[0] && s[i + 1] == r[1];
      } else if i >= |q| {
        assert s[i] == r[i - |q| + 1] && s[i + 1] == r[i - |q| + 2];
      }
    }
  }

  /** `z` has come from `x` to the place `y`, with the buffer `rest` left unless the input has
      ended. */
  ghost predicate Came(input: seq<int>, x: Conf, y: Place, rest: seq<Elem>, z: Conf) {
    && y.At? && x.c <= z.c == y.c <= |input|
    && (z.c < |input| ==> z.s.path == x.s.path && z.s.buf == rest && z.s.limit == y.lim)
  }

  lemma Take(input: seq<int>, table: Table, x: Conf, name: bool, y: Conf)
    requires 0 <= x.c < |input| && Successor(StepOutcome(input, table, x.s, x.c, name), x.c, y)
    ensures Moves(input, table, x, y)
  {
  }

  lemma TakeTerm(input: seq<int>, table: Table, x: Conf, e: Elem, rest: seq<Elem>)
    requires 0 <= x.c < |input| && x.s.buf == [e] + rest
    ensures Says(input, table, x.s.path, x.c, e, Shift) && Inside(x.s.limit, x.c, 1) ==>
      Moves(input, table, x, Conf(x.s.(buf := rest), x.c + 1))
    ensures Says(input, table, x.s.path, x.c, e, Skip) ==> Moves(input, table, x, Conf(x.s.(buf := rest), x.c))
  {
    assert x.s.buf[1..] == rest;
    if Says(input, table, x.s.path, x.c, e, Shift) && Inside(x.s.limit, x.c, 1) {
      var name :| table(e.id, x.s.path, Byte(input, x.c), name) == Shift;
      Take(input, table, x, name, Conf(x.s.(buf := rest), x.c + 1));
    }
    if Says(input, table, x.s.path, x.c, e, Skip) {
      var name :| table(e.id, x.s.path, Byte(input, x.c), name) == Skip;
      Take(input, table, x, name, Conf(x.s.(buf := rest), x.c));
    }
  }

  lemma TakeAlt(input: seq<int>, table: Table, x: Conf, e: Elem, alt: seq<Elem>, rest: seq<Elem>)
    requires 0 <= x.c < |input| && x.s.buf == [e] + rest && Offers(input, table, x.s.path, x.c, e, alt)
    ensures Moves(input, table, x, Conf(Derived(x.s.(buf := rest), e, alt), x.c))
  {
    assert x.s.buf[1..] == rest;
    var name :| table(e.id, x.s.path, Byte(input, x.c), name).Expand?
      && alt in table(e.id, x.s.path, Byte(input, x.c), name).alts;
    var act := table(e.id, x.s.path, Byte(input, x.c), name);
    var i :| 0 <= i < |act.alts| && act.alts[i] == alt;
    var o := StepOutcome(input, table, x.s, x.c, name);
    assert o.Forked? && o.ss[i] == Derived(x.s.(buf := rest), e, alt);
    Take(input, table, x, name, Conf(Derived(x.s.(buf := rest), e, alt), x.c));
  }

  lemma TakeOther(input: seq<int>, table: Table, x: Conf, e: Elem, rest: seq<Elem>)
    requires 0 <= x.c < |input| && x.s.buf == [e] + rest && Bytes(input)
    ensures e == OK && x.s.path != [] ==>
      Moves(input, table, x, Conf(x.s.(buf := rest, path := x.s.path[1..]), x.c))
    ensures x.s.limit != [] && (e == PkgIgnore || (e == PkgEnd && x.s.limit[0] == x.c)) ==>
      Moves(input, table, x, Conf(x.s.(buf := rest, limit := x.s.limit[1..]), x.c))
    ensures e == PkgPush ==>
      Moves(input, table, x, Conf(x.s.(buf := rest, limit := [x.s.pkgc + x.s.pkglen] + x.s.limit), x.c))
    ensures e == PkgLength ==>
      && 0 <= Byte(input, x.c) / 64 <= 3
      && Moves(input, table, x, Conf(Derived(x.s.(buf := rest), e, Group(Byte(input, x.c) / 64)), x.c))
  {
    hide Moves, Derived, Group, Bytes;
    assert x.s.buf[1..] == rest;
    ByteRange(input, x.c);
    if e == OK && x.s.path != [] {
      Take(input, table, x, false, Conf(x.s.(buf := rest, path := x.s.path[1..]), x.c));
    } else if x.s.limit != [] && (e == PkgIgnore || (e == PkgEnd && x.s.limit[0] == x.c)) {
      Take(input, table, x, false, Conf(x.s.(buf := rest, limit := x.s.limit[1..]), x.c));
    } else if e == PkgPush {
      Take(input, table, x, false, Conf(x.s.(buf := rest, limit := [x.s.pkgc + x.s.pkglen] + x.s.limit), x.c));
    } else if e == PkgLength {
      var d := Derived(x.s.(buf := rest), e, Group(Byte(input, x.c) / 64));
      assert [d][0] == d;
      Take(input, table, x, false, Conf(d, x.c));
    }
  }

  lemma TakeLength(input: seq<int>, table: Table, x: Conf, k: nat, rest: seq<Elem>)
    requires 0 <= x.c < |input| && k <= 3 && x.s.buf == [LenAt(k)] + rest && Inside(x.s.limit, x.c, 1)
    ensures var start := if k == 0 then x.c else x.s.pkgc;
            Moves(input, table, x,
                  Conf(x.s.(buf := rest, pkgc := start, pkglen := Partial(input, start, k + 1)), x.c + 1))
  {
    hide Partial, Moves;
    assert x.s.buf[1..] == rest;
    var start := if k == 0 then x.c else x.s.pkgc;
    Take(input, table, x, false,
         Conf(x.s.(buf := rest, pkgc := start, pkglen := Partial(input, start, k + 1)), x.c + 1));
  }

  lemma {:induction false} LengthSteps(input: seq<int>, table: Table, x: Conf, c: int, n: nat, k: nat, v: seq<Elem>)
    returns (q: seq<Conf>, z: Conf)
    requires Bytes(input) && InGroup(input, x, c, n, k, v) && k <= n + 1 && x.c == c + k <= |input|
    requires Inside(x.s.limit, c + k, (if c + n + 1 < |input| then c + n + 1 else |input|) - (c + k))
    ensures Run(input, table, q, x, z)
    ensures if c + n + 1 < |input| then Came(input, x, At(c + n + 1, [c + Decode(input, c)] + x.s.limit), v, z)
            else z.c == |input|
    decreases n + 1 - k
  {
    hide Decode, Partial, Group, Moves, LenAt, Run, Bytes, InGroup;
    if x.c == |input| {
      z := x;
      q := RunNone(input, table, x);
      LengthAtEnd(input, x, c, n, k, v);
    } else if k <= n {
      var y := LengthStep(input, table, x, c, n, k, v);
      var r;
      r, z := LengthSteps(input, table, y, c, n, k + 1, v);
      q := RunOne(input, table, x, y);
      q := RunJoin(input, table, q, r, x, y, z);
    } else {
      z := LengthEnd(input, table, x, c, n, k, v);
      q := RunOne(input, table, x, z);
    }
  }

  lemma LengthAtEnd(input: seq<int>, x: Conf, c: int, n: nat, k: nat, v: seq<Elem>)
    requires InGroup(input, x, c, n, k, v) && x.c == |input|
    ensures c + n + 1 >= |input|
  {
  }

  lemma LengthStep(input: seq<int>, table: Table, x: Conf, c: int, n: nat, k: nat, v: seq<Elem>) returns (y: Conf)
    requires InGroup(input, x, c, n, k, v) && x.c < |input| && k <= n && Inside(x.s.limit, c + k, 1)
    ensures Moves(input, table, x, y) && InGroup(input, y, c, n, k + 1, v)
    ensures y.s.limit == x.s.limit && y.s.path == x.s.path && y.c == x.c + 1
  {
    hide Partial, Group, Moves, LenAt;
    GroupAt(n, k, v);
    var rest := Group(n)[k + 1..] + v;
    assert x.s.buf == [LenAt(k)] + rest;
    TakeLength(input, table, x, k, rest);
    y := Conf(x.s.(buf := rest, pkgc := c, pkglen := Partial(input, c, k + 1)), x.c + 1);
  }

  lemma LengthEnd(input: seq<int>, table: Table, x: Conf, c: int, n: nat, k: nat, v: seq<Elem>) returns (y: Conf)
    requires InGroup(input, x, c, n, k, v) && x.c < |input| && k > n && Bytes(input)
    ensures Moves(input, table, x, y)
    ensures c + n + 1 < |input| && Came(input, x, At(c + n + 1, [c + Decode(input, c)] + x.s.limit), v, y)
  {
    hide Partial, Group, Moves, LenAt, Decode, Bytes;
    GroupAt(n, k, v);
    assert Group(n)[k + 1..] + v == v;
    assert x.s.buf == [PkgPush] + v;
    DecodePartial(input, c, n);
    TakeOther(input, table, x, PkgPush, v);
    y := Conf(x.s.(buf := v, limit := [x.s.pkgc + x.s.pkglen] + x.s.limit), x.c);
  }

  /** The path mark behind what an element has been derived to. */
  lemma MarkStep(input: seq<int>, table: Table, path: seq<Elem>, e: Elem, rest: seq<Elem>, x: Conf)
    returns (q: seq<Conf>, z: Conf)
    requires Bytes(input) && 0 <= x.c < |input| && x.s.path == Under(path, e) && x.s.buf == Mark(path, e) + rest
    ensures Run(input, table, q, x, z) && z == Conf(x.s.(path := path, buf := rest), x.c)
  {
    hide Moves, Run, Bytes;
    if Noted(path, e) {
      TakeOther(input, table, x, OK, rest);
      assert ([e] + path)[1..] == path;
      z := Conf(x.s.(buf := rest, path := x.s.path[1..]), x.c);
      q := RunOne(input, table, x, z);
    } else {
      assert [] + rest == rest;
      z := x;
      q := RunNone(input, table, x);
    }
  }

  lemma {:induction false} Follow(input: seq<int>, table: Table, x: Conf, e: Elem, t: Tree, rest: seq<Elem>)
    returns (q: seq<Conf>, z: Conf)
    requires Bytes(input) && 0 <= x.c <= |input| && x.s.buf == [e] + rest
    requires Past(input, table, x.s.path, At(x.c, x.s.limit), e, t).At?
    ensures Run(input, table, q, x, z)
    ensures Came(input, x, Past(input, table, x.s.path, At(x.c, x.s.limit), e, t), rest, z)
    decreases t, 0
  {
    hide Moves, Run, Bytes, Decode, Group, Derived, PastAll;
    if x.c == |input| {
      z := x;
      q := RunNone(input, table, x);
      return;
    }
    match t
    case Byte1 =>
      TakeTerm(input, table, x, e, rest);
      z := Conf(x.s.(buf := rest), x.c + 1);
      q := RunOne(input, table, x, z);
    case Empty =>
      TakeTerm(input, table, x, e, rest);
      z := Conf(x.s.(buf := rest), x.c);
      q := RunOne(input, table, x, z);
    case Use(alt, kids) => q, z := FollowUse(input, table, x, e, alt, kids, rest);
    case Length => q, z := FollowLength(input, table, x, rest);
    case Open => assert false;
    case End | Ignore =>
      TakeOther(input, table, x, e, rest);
      z := Conf(x.s.(buf := rest, limit := x.s.limit[1..]), x.c);
      q := RunOne(input, table, x, z);
  }

  lemma {:induction false} FollowUse(input: seq<int>, table: Table, x: Conf, e: Elem, alt: seq<Elem>, kids: seq<Tree>,
                                     rest: seq<Elem>)
    returns (q: seq<Conf>, z: Conf)
    requires Bytes(input) && 0 <= x.c < |input| && x.s.buf == [e] + rest && |kids| == |alt|
    requires Offers(input, table, x.s.path, x.c, e, alt)
      && PastAll(input, table, Under(x.s.path, e), At(x.c, x.s.limit), alt, kids).At?
    ensures Run(input, table, q, x, z)
    ensures Came(input, x, PastAll(input, table, Under(x.s.path, e), At(x.c, x.s.limit), alt, kids), rest, z)
    decreases kids, |alt| + 1
  {
    hide Moves, Run, Bytes, Past, PastAll, Offers;
    var s := Derived(x.s.(buf := rest), e, alt);
    var y := Conf(s, x.c);
    TakeAlt(input, table, x, e, alt, rest);
    DerivedIs(x.s.(buf := rest), e, alt);
    q := RunOne(input, table, x, y);
    var r;
    r, z := FollowAll(input, table, y, alt, kids, Mark(x.s.path, e) + rest);
    q := RunJoin(input, table, q, r, x, y, z);
    if z.c < |input| {
      var m, z' := MarkStep(input, table, x.s.path, e, rest, z);
      q := RunJoin(input, table, q, m, x, z, z');
      z := z';
    }
  }

  lemma {:induction false} FollowLength(input: seq<int>, table: Table, x: Conf, rest: seq<Elem>)
    returns (q: seq<Conf>, z: Conf)
    requires Bytes(input) && 0 <= x.c < |input| && x.s.buf == [PkgLength] + rest
    requires BehindLength(input, x.c, x.s.limit).At?
    ensures Run(input, table, q, x, z) && Came(input, x, BehindLength(input, x.c, x.s.limit), rest, z)
  {
    hide Moves, Run, Bytes, Group, Decode;
    var n, v := Byte(input, x.c) / 64, Mark(x.s.path, PkgLength) + rest;
    TakeOther(input, table, x, PkgLength, rest);
    var y := Conf(Derived(x.s.(buf := rest), PkgLength, Group(n)), x.c);
    DerivedIs(x.s.(buf := rest), PkgLength, Group(n));
    GroupAt(n, 0, v);
    assert Group(n)[0..] == Group(n);
    q := RunOne(input, table, x, y);
    var r;
    r, z := LengthSteps(input, table, y, x.c, n, 0, v);
    q := RunJoin(input, table, q, r, x, y, z);
    if z.c < |input| {
      var m, z' := MarkStep(input, table, x.s.path, PkgLength, rest, z);
      q := RunJoin(input, table, q, m, x, z, z');
      z := z';
    }
  }

  lemma {:induction false} FollowAll(input: seq<int>, table: Table, x: Conf, es: seq<Elem>, ts: seq<Tree>, v: seq<Elem>)
    returns (q: seq<Conf>, z: Conf)
    requires Bytes(input) && 0 <= x.c <= |input| && x.s.buf == es + v && |ts| == |es|
    requires PastAll(input, table, x.s.path, At(x.c, x.s.limit), es, ts).At?
    ensures Run(input, table, q, x, z)
    ensures Came(input, x, PastAll(input, table, x.s.path, At(x.c, x.s.limit), es, ts), v, z)
    decreases ts, |es|
  {
    hide Moves, Run, Bytes, Past;
    if es == [] {
      assert es + v == v;
      z := x;
      q := RunNone(input, table, x);
      return;
    }
    var y := Past(input, table, x.s.path, At(x.c, x.s.limit), es[0], ts[0]);
    assert es + v == [es[0]] + (es[1..] + v);
    if y.Nowhere? {
      NowhereStays(input, table, x.s.path, es[1..], ts[1..]);
    }
    var w;
    q, w := Follow(input, table, x, es[0], ts[0], es[1..] + v);
    if w.c == |input| {
      EndStays(input, table, x.s.path, y, es[1..], ts[1..]);
      z := w;
    } else {
      var r;
      r, z := FollowAll(input, table, w, es[1..], ts[1..], v);
      q := RunJoin(input, table, q, r, x, w, z);
    }
  }

  lemma {:induction false} NowhereStays(input: seq<int>, table: Table, path: seq<Elem>, es: seq<Elem>, ts: seq<Tree>)
    requires |ts| == |es|
    ensures PastAll(input, table, path, Nowhere, es, ts) == Nowhere
    decreases |es|
  {
    if es != [] {
      NowhereStays(input, table, path, es[1..], ts[1..]);
    }
  }

  lemma {:induction false} EndStays(input: seq<int>, table: Table, path: seq<Elem>, x: Place, es: seq<Elem>,
                                    ts: seq<Tree>)
    requires |ts| == |es| && x.At? && x.c == |input|
    ensures PastAll(input, table, path, x, es, ts) in {x, Nowhere}
    decreases |es|
  {
    if es != [] {
      if ts[0].Open? {
        EndStays(input, table, path, x, es[1..], ts[1..]);
      } else {
        NowhereStays(input, table, path, es[1..], ts[1..]);
      }
    }
  }

  /** What can be derived is on a path of the parser. */
  lemma Followed(input: seq<int>, table: Table, start: nat, t: Tree) returns (p: seq<Conf>)
    requires Bytes(input) && Derivation(input, table, start, t)
    ensures p != [] && IsPath(input, table, start, p) && Last(p).c == |input|
  {
    hide Past, Moves;
    var z;
    assert [Term(start)] + [] == [Term(start)];
    p, z := Follow(input, table, Conf(StartState(start), 0), Term(start), t, []);
  }

  /** The parser can get to the end of the input exactly if that can be derived. */
  lemma ReachableIff(input: seq<int>, table: Table, start: nat)
    requires Bytes(input) && TableOk(table)
    ensures Reachable(input, table, start) <==> Derivable(input, table, start)
  {
    hide IsPath, Derivation, Bytes, TableOk;
    if Reachable(input, table, start) {
      var p :| p != [] && IsPath(input, table, start, p) && Last(p).c == |input|;
      Accepted(input, table, start, p);
    }
    if Derivable(input, table, start) {
      var t :| Derivation(input, table, start, t);
      var p := Followed(input, table, start, t);
    }
  }
}
