/** The AML parser as a machine on values: one step of a parse state, the paths that steps
    make from the start, and the packages that are opened and closed along a path. */
module AmlRuns {
  import opened AmlModel

  ghost predicate Bytes(input: seq<int>) {
    forall i :: 0 <= i < |input| ==> 0 <= input[i] < 256
  }

  // ---------------------------------------------------------------- one step

  /** What becomes of a parse state: it is freed, it goes on at this byte, it is replaced by
      one state for each alternative, or it has read this byte. */
  datatype Outcome = Dead | On(s: State) | Forked(ss: seq<State>) | Read(s: State)

  /** The state after a copy of `s` has noted `e` on its path and put `alt` in its place. */
  ghost function Derived(s: State, e: Elem, alt: seq<Elem>): State {
    var note := s.path == [] || s.path[0] != e;
    State((if note then [e] else []) + s.path, alt + (if note then [OK] else []) + s.buf, s.limit, 0, 0)
  }

  /** The state `s` after the element `e` has been taken off its buffer. */
  ghost function TermOutcome(s: State, e: Elem, act: Action, c: int): Outcome {
    match act
    case Expand(alts) => Forked(seq(|alts|, i requires 0 <= i < |alts| => Derived(s, e, alts[i])))
    case Shift => ReadOutcome(s, c)
    case Fail => Dead
    case Skip => On(s)
  }

  /** A byte at the end of the innermost package is not read. */
  ghost function ReadOutcome(s: State, c: int): Outcome {
    if s.limit != [] && s.limit[0] == c then Dead else Read(s)
  }

  ghost function LengthOutcome(input: seq<int>, s: State, k: nat, c: int): (o: Outcome)
    ensures !o.On?
  {
    var start := if k == 0 then c else s.pkgc;
    ReadOutcome(s.(pkgc := start, pkglen := Partial(input, start, k + 1)), c)
  }

  ghost function PopOutcome(s: State, e: Elem, c: int): Outcome {
    if s.limit != [] && (e == PkgIgnore || s.limit[0] == c) then On(s.(limit := s.limit[1..])) else Dead
  }

  ghost function FrontOutcome(input: seq<int>, s: State, e: Elem, act: Action, c: int): Outcome {
    match e
    case OK => if s.path != [] then On(s.(path := s.path[1..])) else Dead
    case PkgPush => On(s.(limit := [s.pkgc + s.pkglen] + s.limit))
    case PkgIgnore => PopOutcome(s, e, c)
    case PkgEnd => PopOutcome(s, e, c)
    case PkgLength =>
      var n := Byte(input, c) / 64;
      if 0 <= n <= 3 then Forked([Derived(s, e, Group(n))]) else Dead
    case Len0 => LengthOutcome(input, s, 0, c)
    case Len1 => LengthOutcome(input, s, 1, c)
    case Len2 => LengthOutcome(input, s, 2, c)
    case Len3 => LengthOutcome(input, s, 3, c)
    case Term(_) => TermOutcome(s, e, act, c)
  }

  ghost function ActionFor(input: seq<int>, table: Table, s: State, c: int, name: bool): Action {
    if s.buf != [] && s.buf[0].Term? then table(s.buf[0].id, s.path, Byte(input, c), name) else Skip
  }

  /** The front element is taken off the buffer and acted on. */
  ghost function StepOutcome(input: seq<int>, table: Table, s: State, c: int, name: bool): Outcome {
    if s.buf == [] then Dead
    else FrontOutcome(input, s.(buf := s.buf[1..]), s.buf[0], ActionFor(input, table, s, c, name), c)
  }

  // ---------------------------------------------------------------- paths

  /** A state and the position of the byte it is at. */
  datatype Conf = Conf(s: State, c: int)

  ghost predicate Successor(o: Outcome, c: int, y: Conf) {
    match o
    case Dead => false
    case On(s) => y == Conf(s, c)
    case Forked(ss) => y.c == c && y.s in ss
    case Read(s) => y == Conf(s, c + 1)
  }

  ghost predicate Moves(input: seq<int>, table: Table, x: Conf, y: Conf) {
    && 0 <= x.c < |input|
    && exists name :: Successor(StepOutcome(input, table, x.s, x.c, name), x.c, y)
  }

  function StartState(start: nat): State {
    State([], [Term(start)], [], 0, 0)
  }

  /** What one parse state has been through, from the first byte and the start symbol on. */
  ghost predicate IsPath(input: seq<int>, table: Table, start: nat, p: seq<Conf>) {
    && |p| > 0 && p[0] == Conf(StartState(start), 0)
    && forall i :: 0 <= i < |p| - 1 ==> Moves(input, table, p[i], p[i + 1])
  }

  ghost function Last(p: seq<Conf>): Conf
    requires p != []
  {
    p[|p| - 1]
  }

  lemma PathMore(input: seq<int>, table: Table, start: nat, p: seq<Conf>, y: Conf)
    requires IsPath(input, table, start, p) && Moves(input, table, Last(p), y)
    ensures IsPath(input, table, start, p + [y]) && Last(p + [y]) == y
  {
  }

  ghost function Front(x: Conf): Elem {
    if x.s.buf == [] then OK else x.s.buf[0]
  }

  // ---------------------------------------------------------------- the packages of a path

  /** Step `i` opens a package: its limit goes on the stack. */
  ghost predicate Opens(p: seq<Conf>, i: int) {
    0 <= i < |p| - 1 && Front(p[i]) == PkgPush
  }

  ghost function Depth(p: seq<Conf>, i: int): nat
    requires 0 <= i < |p|
  {
    |p[i].s.limit|
  }

  /** Between steps `i` and `n` the limit that step `i` has pushed stays on the stack. */
  ghost predicate Above(p: seq<Conf>, i: int, n: int)
    requires 0 <= i < |p| && n < |p|
  {
    forall k :: i < k <= n ==> Depth(p, k) > Depth(p, i)
  }

  /** Step `j` takes the limit off the stack that step `i` has put there. */
  ghost predicate Closes(p: seq<Conf>, i: int, j: int) {
    && Opens(p, i) && i < j < |p| - 1 && (Front(p[j]) == PkgEnd || Front(p[j]) == PkgIgnore)
    && Depth(p, j) == Depth(p, i) + 1 && Above(p, i, j)
  }

  /** A package, from the step that opens it to the end mark that closes it. */
  ghost predicate Package(p: seq<Conf>, i: int, j: int) {
    Closes(p, i, j) && Front(p[j]) == PkgEnd
  }

  /** The bytes of a package, from the lead byte of its length on. */
  ghost function SpanOf(p: seq<Conf>, i: int, j: int): Span
    requires 0 <= i < |p| && 0 <= j < |p|
  {
    Span(p[i].s.pkgc, p[j].c)
  }

  /** Every package that has been opened has been closed or ignored. */
  ghost predicate AllClosed(p: seq<Conf>) {
    forall i :: Opens(p, i) ==> exists j :: Closes(p, i, j)
  }

  // ---------------------------------------------------------------- the history of a path

  ghost function NextHist(input: seq<int>, x: Conf, h: Hist): Hist {
    match Front(x)
    case PkgLength => if Byte(input, x.c) >= 0 then h.(len := Yes(Byte(input, x.c) / 64, 0)) else h
    case Len0 => if h.len.Yes? then h.(len := Yes(h.len.n, 1)) else h
    case Len1 => if h.len.Yes? then h.(len := Yes(h.len.n, 2)) else h
    case Len2 => if h.len.Yes? then h.(len := Yes(h.len.n, 3)) else h
    case Len3 => if h.len.Yes? then h.(len := Yes(h.len.n, 4)) else h
    case PkgPush => Hist([x.s.pkgc] + h.open, h.closed, No)
    case PkgIgnore => if h.open != [] then h.(open := h.open[1..]) else h
    case PkgEnd => if h.open != [] then Hist(h.open[1..], h.closed + [Span(h.open[0], x.c)], h.len) else h
    case _ => h
  }

  ghost function HistAt(input: seq<int>, p: seq<Conf>, n: nat): Hist
    requires n < |p|
  {
    if n == 0 then Hist([], [], No) else NextHist(input, p[n - 1], HistAt(input, p, n - 1))
  }

  lemma ByteRange(input: seq<int>, i: int)
    requires Bytes(input)
    ensures 0 <= Byte(input, i) < 256
  {
  }

  lemma StartOk(input: seq<int>, start: nat)
    ensures StateOk(input, StartState(start), Hist([], [], No), 0)
  {
    assert [Term(start)][1..] == [];
  }

  lemma TermOk(input: seq<int>, x: Conf, h: Hist, act: Action, y: Conf)
    requires StateOk(input, x.s, h, x.c) && x.s.buf != [] && x.s.buf[0].Term?
    requires act.Expand? ==> forall i :: 0 <= i < |act.alts| ==> Balanced(act.alts[i])
    requires Successor(TermOutcome(x.s.(buf := x.s.buf[1..]), x.s.buf[0], act, x.c), x.c, y)
    ensures StateOk(input, y.s, h, y.c)
  {
    hide StateOk, Balanced;
    var e, r := x.s.buf[0], x.s.(buf := x.s.buf[1..]);
    NotInLength(input, x.s, h, x.c);
    if act.Expand? {
      var ss := TermOutcome(r, e, act, x.c).ss;
      var i :| 0 <= i < |ss| && ss[i] == y.s;
      Expanded(input, x.s, h, x.c, act.alts[i], r.path == [] || r.path[0] != e);
      Unread(input, x.s.(path := y.s.path, buf := y.s.buf), h, x.c);
    } else {
      Skipped(input, x.s, h, x.c, y.c);
    }
  }

  /** The fields that hold a length do not matter outside one. */
  lemma Unread(input: seq<int>, s: State, h: Hist, pos: int)
    requires StateOk(input, s, h, pos) && (h.len.No? || h.len.k == 0)
    ensures StateOk(input, s.(pkgc := 0, pkglen := 0), h, pos)
  {
  }

  lemma PkgLengthOk(input: seq<int>, x: Conf, h: Hist, y: Conf)
    requires StateOk(input, x.s, h, x.c) && Front(x) == PkgLength && x.s.buf != []
    requires Successor(FrontOutcome(input, x.s.(buf := x.s.buf[1..]), PkgLength, Skip, x.c), x.c, y)
    ensures StateOk(input, y.s, NextHist(input, x, h), y.c)
  {
    hide StateOk;
    var r := x.s.(buf := x.s.buf[1..]);
    NotInLength(input, x.s, h, x.c);
    ExpandedLength(input, x.s, h, x.c, Byte(input, x.c) / 64, r.path == [] || r.path[0] != PkgLength);
    Unread(input, x.s.(path := y.s.path, buf := y.s.buf), NextHist(input, x, h), x.c);
  }

  /** What the fields hold when the next byte of a length is read. */
  lemma LengthSoFar(input: seq<int>, s: State, h: Hist, pos: int, k: nat)
    requires StateOk(input, s, h, pos) && s.buf != [] && s.buf[0] == LenAt(k) && k <= 3
    ensures h.len.Yes? && h.len.k == k && (k > 0 ==> s.pkgc == pos - k && s.pkglen == Partial(input, s.pkgc, k))
  {
    GroupFront(s.buf, h.len.n, h.len.k);
    InGroup(h.len.n, h.len.k);
  }

  lemma LenOk(input: seq<int>, x: Conf, h: Hist, k: nat, y: Conf)
    requires StateOk(input, x.s, h, x.c) && x.s.buf != [] && x.s.buf[0] == LenAt(k) && k <= 3
    requires Successor(LengthOutcome(input, x.s.(buf := x.s.buf[1..]), k, x.c), x.c, y)
    ensures StateOk(input, y.s, NextHist(input, x, h), y.c)
  {
    hide StateOk;
    LengthSoFar(input, x.s, h, x.c, k);
    LengthRead(input, x.s, h, x.c, k, Partial(input, if k == 0 then x.c else x.s.pkgc, k + 1));
  }

  /** A step leads from a state in order to states in order. */
  lemma StepOk(input: seq<int>, table: Table, x: Conf, h: Hist, y: Conf)
    requires TableOk(table) && Bytes(input) && StateOk(input, x.s, h, x.c) && Moves(input, table, x, y)
    ensures StateOk(input, y.s, NextHist(input, x, h), y.c)
  {
    hide StateOk, TableOk, Bytes, TermOutcome, LengthOutcome, Balanced;
    var name :| Successor(StepOutcome(input, table, x.s, x.c, name), x.c, y);
    ByteRange(input, x.c);
    ByteRange(input, x.s.pkgc);
    match x.s.buf[0]
    case OK => PathPopped(input, x.s, h, x.c);
    case PkgPush => Pushed(input, x.s, h, x.c);
    case PkgIgnore => Ignored(input, x.s, h, x.c);
    case PkgEnd => Ended(input, x.s, h, x.c);
    case PkgLength => PkgLengthOk(input, x, h, y);
    case Len0 => LenOk(input, x, h, 0, y);
    case Len1 => LenOk(input, x, h, 1, y);
    case Len2 => LenOk(input, x, h, 2, y);
    case Len3 => LenOk(input, x, h, 3, y);
    case Term(id) =>
      var act := ActionFor(input, table, x.s, x.c, name);
      if act.Expand? {
        TableAlts(table, id, x.s.path, Byte(input, x.c), name);
      }
      TermOk(input, x, h, act, y);
  }

  /** Every state of a path is in order. */
  lemma {:induction false} PathOk(input: seq<int>, table: Table, start: nat, p: seq<Conf>, n: nat)
    requires TableOk(table) && Bytes(input) && IsPath(input, table, start, p) && n < |p|
    ensures StateOk(input, p[n].s, HistAt(input, p, n), p[n].c)
  {
    hide StateOk, TableOk, Bytes, NextHist, Moves;
    if n == 0 {
      StartOk(input, start);
    } else {
      PathOk(input, table, start, p, n - 1);
      assert Moves(input, table, p[n - 1], p[n - 1 + 1]);
      StepOk(input, table, p[n - 1], HistAt(input, p, n - 1), p[n]);
    }
  }

  /** None of the three underflow errors: what is to be taken off a stack is there. */
  lemma NoUnderflow(input: seq<int>, s: State, h: Hist, c: int)
    requires StateOk(input, s, h, c) && s.buf != []
    ensures s.buf[0] == OK ==> s.path != []
    ensures s.buf[0] == PkgIgnore || s.buf[0] == PkgEnd ==> s.limit != []
  {
    hide StateOk;
    match s.buf[0]
    case OK => PathPopped(input, s, h, c);
    case PkgIgnore => Ignored(input, s, h, c);
    case PkgEnd => Ended(input, s, h, c);
    case _ =>
  }

  // ---------------------------------------------------------------- brackets

  function Change(e: Elem): int {
    match e
    case PkgPush => 1
    case PkgIgnore => -1
    case PkgEnd => -1
    case _ => 0
  }

  lemma MoveDepth(input: seq<int>, table: Table, x: Conf, y: Conf)
    requires Moves(input, table, x, y)
    ensures |y.s.limit| == |x.s.limit| + Change(Front(x))
  {
  }

  lemma DepthNext(input: seq<int>, table: Table, start: nat, p: seq<Conf>, n: nat)
    requires IsPath(input, table, start, p) && n < |p| - 1
    ensures Depth(p, n + 1) == Depth(p, n) + Change(Front(p[n]))
  {
    hide Moves;
    MoveDepth(input, table, p[n], p[n + 1]);
  }

  /** The steps that have opened the packages now open, innermost first. */
  ghost function OpenAt(p: seq<Conf>, n: nat): seq<int>
    requires n < |p|
  {
    if n == 0 then []
    else
      var o := OpenAt(p, n - 1);
      match Front(p[n - 1])
      case PkgPush => [n - 1] + o
      case PkgIgnore => if o != [] then o[1..] else []
      case PkgEnd => if o != [] then o[1..] else []
      case _ => o
  }

  /** The packages closed so far, each by the steps that have opened and closed it. */
  ghost function ClosedAt(p: seq<Conf>, n: nat): seq<(int, int)>
    requires n < |p|
  {
    if n == 0 then []
    else
      var o, d := OpenAt(p, n - 1), ClosedAt(p, n - 1);
      if Front(p[n - 1]) == PkgEnd && o != [] then d + [(o[0], n - 1)] else d
  }

  ghost predicate OpenSteps(p: seq<Conf>, n: nat, o: seq<int>)
    requires n < |p|
  {
    && |o| == Depth(p, n)
    && forall m :: 0 <= m < |o| ==> Opens(p, o[m]) && o[m] < n && Depth(p, o[m]) == |o| - 1 - m && Above(p, o[m], n)
  }

  lemma {:induction false} OpenIs(input: seq<int>, table: Table, start: nat, p: seq<Conf>, n: nat)
    requires IsPath(input, table, start, p) && n < |p|
    ensures OpenSteps(p, n, OpenAt(p, n))
  {
    hide IsPath;
    if n == 0 {
      PathStart(input, table, start, p);
    } else {
      OpenIs(input, table, start, p, n - 1);
      DepthNext(input, table, start, p, n - 1);
      var o, o' := OpenAt(p, n - 1), OpenAt(p, n);
      if Front(p[n - 1]) == PkgPush {
        PushOpens(p, n - 1);
      }
      var skip := match Front(p[n - 1]) case PkgPush => -1 case PkgIgnore => 1 case PkgEnd => 1 case _ => 0;
      assert |o'| == |o| - skip;
      forall m | 0 <= m < |o'|
        ensures Opens(p, o'[m]) && o'[m] < n && Depth(p, o'[m]) == |o'| - 1 - m && Above(p, o'[m], n)
      {
        if m + skip >= 0 {
          assert o'[m] == o[m + skip];
        }
      }
    }
  }

  lemma PathStart(input: seq<int>, table: Table, start: nat, p: seq<Conf>)
    requires IsPath(input, table, start, p)
    ensures |p| > 0 && Depth(p, 0) == 0
  {
  }

  lemma PushOpens(p: seq<Conf>, i: nat)
    requires i < |p| - 1 && Front(p[i]) == PkgPush
    ensures Opens(p, i)
  {
  }

  /** A package that has not been closed is among the open ones, at its depth. */
  lemma {:induction false} StaysOpen(input: seq<int>, table: Table, start: nat, p: seq<Conf>, i: nat, n: nat)
    requires IsPath(input, table, start, p) && Opens(p, i) && i < n < |p| && Above(p, i, n)
    ensures |OpenAt(p, n)| == Depth(p, n) > Depth(p, i) && OpenAt(p, n)[Depth(p, n) - 1 - Depth(p, i)] == i
    decreases n
  {
    hide IsPath;
    OpenIs(input, table, start, p, n - 1);
    DepthNext(input, table, start, p, n - 1);
    if n - 1 > i {
      StaysOpen(input, table, start, p, i, n - 1);
    }
  }

  /** What a step closes is what has been opened last. */
  lemma ClosesLast(input: seq<int>, table: Table, start: nat, p: seq<Conf>, i: int, j: int)
    requires IsPath(input, table, start, p) && Closes(p, i, j)
    ensures OpenAt(p, j) != [] && OpenAt(p, j)[0] == i
  {
    StaysOpen(input, table, start, p, i, j);
  }

  lemma {:induction false} ClosedGrows(p: seq<Conf>, m: nat, n: nat)
    requires m <= n < |p|
    ensures ClosedAt(p, m) <= ClosedAt(p, n)
    decreases n
  {
    if m < n {
      ClosedGrows(p, m, n - 1);
    }
  }

  lemma {:induction false} ClosedBefore(p: seq<Conf>, n: nat, m: nat)
    requires n < |p| && m < |ClosedAt(p, n)|
    ensures 0 <= ClosedAt(p, n)[m].1 < n
    decreases n
  {
    if n > 0 && m < |ClosedAt(p, n - 1)| {
      ClosedBefore(p, n - 1, m);
    }
  }

  /** The closed packages are exactly the bracket pairs of the path. */
  lemma {:induction false} ClosedIs(input: seq<int>, table: Table, start: nat, p: seq<Conf>, i: int, j: int)
    requires IsPath(input, table, start, p)
    ensures Package(p, i, j) <==> (i, j) in ClosedAt(p, |p| - 1)
  {
    hide IsPath;
    PathStart(input, table, start, p);
    if Package(p, i, j) {
      ClosesLast(input, table, start, p, i, j);
      assert ClosedAt(p, j + 1)[|ClosedAt(p, j + 1)| - 1] == (i, j);
      ClosedGrows(p, j + 1, |p| - 1);
    }
    if (i, j) in ClosedAt(p, |p| - 1) {
      ClosedPackage(input, table, start, p, |p| - 1, i, j);
    }
  }

  lemma {:induction false} ClosedPackage(input: seq<int>, table: Table, start: nat, p: seq<Conf>, n: nat, i: int,
                                         j: int)
    requires IsPath(input, table, start, p) && n < |p| && (i, j) in ClosedAt(p, n)
    ensures Package(p, i, j)
    decreases n
  {
    hide IsPath;
    if n > 0 {
      if (i, j) in ClosedAt(p, n - 1) {
        ClosedPackage(input, table, start, p, n - 1, i, j);
      } else {
        OpenIs(input, table, start, p, n - 1);
      }
    }
  }

  /** A history keeps, for the packages of a path, where they start and end. */
  ghost predicate Keeps(p: seq<Conf>, h: Hist, o: seq<int>, d: seq<(int, int)>) {
    && |h.open| == |o| && (forall m :: 0 <= m < |o| ==> 0 <= o[m] < |p| && h.open[m] == p[o[m]].s.pkgc)
    && |h.closed| == |d| && (forall m :: 0 <= m < |d| ==> KeptAt(p, d[m], h.closed[m]))
  }

  ghost predicate KeptAt(p: seq<Conf>, x: (int, int), y: Span) {
    0 <= x.0 < |p| && 0 <= x.1 < |p| && y == SpanOf(p, x.0, x.1)
  }

  lemma {:induction false} HistIs(input: seq<int>, p: seq<Conf>, n: nat)
    requires n < |p|
    ensures Keeps(p, HistAt(input, p, n), OpenAt(p, n), ClosedAt(p, n))
  {
    hide KeptAt;
    if n > 0 {
      HistIs(input, p, n - 1);
      var h, o, d := HistAt(input, p, n - 1), OpenAt(p, n - 1), ClosedAt(p, n - 1);
      match Front(p[n - 1])
      case PkgPush => KeepsPush(p, h, o, d, n - 1);
      case PkgIgnore => KeepsPop(p, h, o, d, n - 1);
      case PkgEnd => KeepsPop(p, h, o, d, n - 1);
      case _ =>
    }
  }

  lemma KeepsPush(p: seq<Conf>, h: Hist, o: seq<int>, d: seq<(int, int)>, i: nat)
    requires Keeps(p, h, o, d) && i < |p|
    ensures Keeps(p, Hist([p[i].s.pkgc] + h.open, h.closed, No), [i] + o, d)
  {
  }

  lemma KeepsPop(p: seq<Conf>, h: Hist, o: seq<int>, d: seq<(int, int)>, j: nat)
    requires Keeps(p, h, o, d) && j < |p|
    ensures o != [] ==> Keeps(p, h.(open := h.open[1..]), o[1..], d)
    ensures o != [] ==>
      Keeps(p, Hist(h.open[1..], h.closed + [Span(h.open[0], p[j].c)], h.len), o[1..], d + [(o[0], j)])
  {
  }

  // ---------------------------------------------------------------- what a parse means

  /** Entry `m` of the history of a path is the package from step `i` to step `j`. */
  ghost predicate Logged(input: seq<int>, p: seq<Conf>, m: nat, i: int, j: int) {
    && p != [] && m < |ClosedAt(p, |p| - 1)| && ClosedAt(p, |p| - 1)[m] == (i, j)
    && m < |HistAt(input, p, |p| - 1).closed| && KeptAt(p, (i, j), HistAt(input, p, |p| - 1).closed[m])
  }

  lemma InLog(input: seq<int>, table: Table, start: nat, p: seq<Conf>, i: int, j: int) returns (m: nat)
    requires IsPath(input, table, start, p) && Package(p, i, j)
    ensures Logged(input, p, m, i, j)
  {
    hide IsPath, Package, HistAt, OpenAt, ClosedAt, KeptAt;
    PathStart(input, table, start, p);
    ClosedIs(input, table, start, p, i, j);
    HistIs(input, p, |p| - 1);
    var d := ClosedAt(p, |p| - 1);
    m :| 0 <= m < |d| && d[m] == (i, j);
  }

  /** Every package that a path closes ends where its own length says, at or before the byte
      that the path has reached. */
  lemma PackageLength(input: seq<int>, table: Table, start: nat, p: seq<Conf>, i: int, j: int)
    requires TableOk(table) && Bytes(input) && IsPath(input, table, start, p) && Package(p, i, j)
    ensures p[j].c == p[i].s.pkgc + Decode(input, p[i].s.pkgc) && p[j].c <= Last(p).c
  {
    hide IsPath, Package, TableOk, Bytes, Decode, HistAt, ClosedAt;
    PathStart(input, table, start, p);
    PathOk(input, table, start, p, |p| - 1);
    var m := InLog(input, table, start, p, i, j);
    var h := HistAt(input, p, |p| - 1);
    assert Declared(input, h.closed[m]) && h.closed[m].end <= Last(p).c;
  }

  /** Any two of them are disjoint or one lies within the other. */
  lemma PackagesNest(input: seq<int>, table: Table, start: nat, p: seq<Conf>, i: int, j: int, i': int, j': int)
    requires TableOk(table) && Bytes(input) && IsPath(input, table, start, p)
    requires Package(p, i, j) && Package(p, i', j') && (i, j) != (i', j')
    ensures Apart(SpanOf(p, i, j), SpanOf(p, i', j'))
  {
    hide IsPath, Package, TableOk, Bytes, HistAt, ClosedAt;
    PathStart(input, table, start, p);
    PathOk(input, table, start, p, |p| - 1);
    var m := InLog(input, table, start, p, i, j);
    var m' := InLog(input, table, start, p, i', j');
    var h := HistAt(input, p, |p| - 1);
    assert Apart(h.closed[if m < m' then m else m'], h.closed[if m < m' then m' else m]);
  }

  /** Every package closed on a path has the length that its own bytes declare, lies before the
      byte that the path has reached, and any two are disjoint or nested. */
  ghost predicate WellNested(input: seq<int>, p: seq<Conf>) {
    && (forall i, j :: Package(p, i, j) ==> Declared(input, SpanOf(p, i, j)) && SpanOf(p, i, j).end <= Last(p).c)
    && (forall i, j, i', j' :: Package(p, i, j) && Package(p, i', j') && (i, j) != (i', j') ==>
          Apart(SpanOf(p, i, j), SpanOf(p, i', j')))
  }

  lemma PathNested(input: seq<int>, table: Table, start: nat, p: seq<Conf>)
    requires TableOk(table) && Bytes(input) && IsPath(input, table, start, p)
    ensures WellNested(input, p)
  {
    hide IsPath, TableOk, Bytes, Above, Depth, Front;
    forall i, j | Package(p, i, j) ensures Declared(input, SpanOf(p, i, j)) && SpanOf(p, i, j).end <= Last(p).c {
      PackageLength(input, table, start, p, i, j);
    }
    forall i, j, i', j' | Package(p, i, j) && Package(p, i', j') && (i, j) != (i', j')
      ensures Apart(SpanOf(p, i, j), SpanOf(p, i', j'))
    {
      PackagesNest(input, table, start, p, i, j, i', j');
    }
  }

  /** A limit that is gone has been taken off by some step. */
  lemma {:induction false} MustClose(input: seq<int>, table: Table, start: nat, p: seq<Conf>, i: int, n: int)
    returns (j: int)
    requires IsPath(input, table, start, p) && Opens(p, i) && i < n < |p| && !Above(p, i, n)
    ensures Closes(p, i, j)
    decreases n
  {
    hide IsPath, Opens;
    InPath(p, i);
    DepthNext(input, table, start, p, n - 1);
    if Above(p, i, n - 1) {
      j := n - 1;
    } else {
      j := MustClose(input, table, start, p, i, n - 1);
    }
  }

  lemma InPath(p: seq<Conf>, i: int)
    requires Opens(p, i)
    ensures 0 <= i < |p| - 1 && Front(p[i]) == PkgPush
  {
  }

  /** All packages have been closed exactly if the rest of the buffer closes none. */
  lemma AllClosedIff(input: seq<int>, table: Table, start: nat, p: seq<Conf>)
    requires TableOk(table) && Bytes(input) && IsPath(input, table, start, p)
    ensures AllClosed(p) <==> Sum(Last(p).s.buf) == 0
    ensures AllClosed(p) <==> Last(p).s.limit == []
  {
    hide IsPath, TableOk, Bytes, Opens, Closes;
    PathStart(input, table, start, p);
    var n := |p| - 1;
    PathOk(input, table, start, p, n);
    if Last(p).s.limit == [] {
      forall i | Opens(p, i) ensures exists j :: Closes(p, i, j) {
        InPath(p, i);
        assert !(Depth(p, n) > Depth(p, i));
        var j := MustClose(input, table, start, p, i, n);
      }
    } else {
      OpenIs(input, table, start, p, n);
      var i := OpenAt(p, n)[0];
      forall j ensures !Closes(p, i, j) {
        NeverCloses(input, table, start, p, i, j);
      }
      assert Opens(p, i);
    }
  }

  lemma NeverCloses(input: seq<int>, table: Table, start: nat, p: seq<Conf>, i: int, j: int)
    requires IsPath(input, table, start, p) && Opens(p, i) && Above(p, i, |p| - 1)
    ensures !Closes(p, i, j)
  {
    hide IsPath;
    if i < j < |p| - 1 {
      DepthNext(input, table, start, p, j);
      assert Depth(p, j + 1) > Depth(p, i);
    }
  }
}
