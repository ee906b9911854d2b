/** Where the packages of an accepted parse end.  The parser accepts at the end of the input
    without working off its buffer, and compares a position with the innermost limit for
    equality only, so packages end where they say exactly if what they say fits. */
module AmlSpans {
  import opened AmlModel
  import opened AmlRuns

  /** The package is given up again: its limit is dropped, unchecked. */
  ghost predicate Ignored(p: seq<Conf>, i: int) {
    exists j :: Closes(p, i, j) && Front(p[j]) == PkgIgnore
  }

  ghost predicate Real(p: seq<Conf>, i: int) {
    Opens(p, i) && !Ignored(p, i)
  }

  /** Where a package ends by its own length. */
  ghost function EndOf(input: seq<int>, p: seq<Conf>, i: int): int
    requires 0 <= i < |p|
  {
    p[i].s.pkgc + Decode(input, p[i].s.pkgc)
  }

  /** A package ends behind the bytes of its length, within the input and within the packages
      around it. */
  ghost predicate Fits(input: seq<int>, p: seq<Conf>, i: int)
    requires 0 <= i < |p|
  {
    && p[i].c <= EndOf(input, p, i) <= |input|
    && forall e :: e < i && Real(p, e) && Above(p, e, i) ==> EndOf(input, p, i) <= EndOf(input, p, e)
  }

  ghost predicate AllFit(input: seq<int>, p: seq<Conf>) {
    forall i :: Real(p, i) ==> Fits(input, p, i)
  }

  /** A package has ended where it says: by its end mark there, or with the input. */
  ghost predicate Finished(input: seq<int>, p: seq<Conf>, i: int)
    requires 0 <= i < |p|
  {
    || (exists j :: Package(p, i, j) && p[j].c == EndOf(input, p, i))
    || (Above(p, i, |p| - 1) && EndOf(input, p, i) == |input|)
  }

  ghost predicate AllFinished(input: seq<int>, p: seq<Conf>) {
    forall i :: Real(p, i) ==> Finished(input, p, i)
  }

  /** Packages are ignored as soon as they have been opened, with at most a path mark between. */
  ghost predicate Prompt(p: seq<Conf>) {
    forall j :: 0 <= j < |p| - 1 && Front(p[j]) == PkgIgnore ==> PromptAt(p, j)
  }

  ghost predicate PromptAt(p: seq<Conf>, j: int) {
    && 0 < j < |p|
    && (Front(p[j - 1]) == PkgPush || (j > 1 && Front(p[j - 1]) == OK && Front(p[j - 2]) == PkgPush))
  }

  // ---------------------------------------------------------------- steps

  lemma MoveOn(input: seq<int>, table: Table, x: Conf, y: Conf)
    requires Moves(input, table, x, y)
    ensures y.c == x.c || y.c == x.c + 1
    ensures y.c == x.c + 1 ==> Change(Front(x)) == 0 && Front(x) != OK && (x.s.limit != [] ==> x.s.limit[0] != x.c)
    ensures Front(x) == PkgPush ==> y.c == x.c
  {
  }

  lemma StepOn(input: seq<int>, table: Table, start: nat, p: seq<Conf>, n: nat)
    requires IsPath(input, table, start, p) && n < |p| - 1
    ensures var x, y := p[n], p[n + 1];
            && (y.c == x.c || y.c == x.c + 1)
            && (y.c == x.c + 1 ==> Change(Front(x)) == 0 && Front(x) != OK && (x.s.limit != [] ==> x.s.limit[0] != x.c))
            && (Front(x) == PkgPush ==> y.c == x.c)
  {
    hide Moves;
    MoveOn(input, table, p[n], p[n + 1]);
  }

  lemma {:induction false} Onwards(input: seq<int>, table: Table, start: nat, p: seq<Conf>, i: nat, j: nat)
    requires IsPath(input, table, start, p) && i <= j < |p|
    ensures p[i].c <= p[j].c
    decreases j
  {
    hide IsPath;
    if i < j {
      Onwards(input, table, start, p, i, j - 1);
      StepOn(input, table, start, p, j - 1);
    }
  }

  /** The innermost limit is the declared end of the package that was opened last. */
  lemma TopLimit(input: seq<int>, table: Table, start: nat, p: seq<Conf>, n: nat) returns (m: int)
    requires TableOk(table) && Bytes(input) && IsPath(input, table, start, p) && n < |p| && p[n].s.limit != []
    ensures Opens(p, m) && m < n && Above(p, m, n) && Depth(p, m) == Depth(p, n) - 1
    ensures p[n].s.limit[0] == EndOf(input, p, m)
  {
    hide IsPath, TableOk, Bytes, Opens, Decode, HistAt, ClosedAt, OpenAt, ClosedOk;
    PathOk(input, table, start, p, n);
    HistIs(input, p, n);
    OpenIs(input, table, start, p, n);
    m := OpenAt(p, n)[0];
    assert Declared(input, Span(HistAt(input, p, n).open[0], p[n].s.limit[0]));
  }

  // ---------------------------------------------------------------- if all fit

  /** Nothing is read between the opening of a package that is ignored and its end. */
  lemma NotIgnored(input: seq<int>, table: Table, start: nat, p: seq<Conf>, m: int, n: int)
    requires IsPath(input, table, start, p) && Prompt(p) && Opens(p, m) && m < n < |p| - 1 && Above(p, m, n)
    requires p[n + 1].c == p[n].c + 1
    ensures !Ignored(p, m)
  {
    hide IsPath;
    StepOn(input, table, start, p, n);
    forall j ensures !(Closes(p, m, j) && Front(p[j]) == PkgIgnore) {
      if Closes(p, m, j) && Front(p[j]) == PkgIgnore {
        DepthNext(input, table, start, p, j);
        Hurried(input, table, start, p, m, j);
        AboveAt(p, m, n, if j < n then j + 1 else n);
      }
    }
  }

  lemma AboveAt(p: seq<Conf>, i: int, n: int, k: int)
    requires 0 <= i < |p| && 0 <= k <= n < |p| && Above(p, i, n)
    ensures i < k ==> Depth(p, k) > Depth(p, i)
  {
  }

  lemma Hurried(input: seq<int>, table: Table, start: nat, p: seq<Conf>, m: int, j: int)
    requires IsPath(input, table, start, p) && Prompt(p) && Closes(p, m, j) && Front(p[j]) == PkgIgnore
    ensures j == m + 1 || (j == m + 2 && Front(p[m + 1]) == OK)
  {
    hide IsPath;
    DepthNext(input, table, start, p, j - 1);
    AboveAt(p, m, j, j - 1);
    if Front(p[j - 1]) != PkgPush {
      DepthNext(input, table, start, p, j - 2);
      AboveAt(p, m, j, j - 2);
    }
  }

  /** The position is not beyond the end of any package that is open. */
  lemma {:induction false} InBounds(input: seq<int>, table: Table, start: nat, p: seq<Conf>, e: int, n: nat)
    requires TableOk(table) && Bytes(input) && IsPath(input, table, start, p) && Prompt(p) && AllFit(input, p)
    requires Real(p, e) && e < n < |p| && Above(p, e, n)
    ensures p[n].c <= EndOf(input, p, e)
    decreases n
  {
    hide IsPath, TableOk, Bytes, Decode, Ignored, Prompt, EndOf;
    StepOn(input, table, start, p, n - 1);
    assert Fits(input, p, e);
    if n - 1 > e {
      InBounds(input, table, start, p, e, n - 1);
      if p[n].c > p[n - 1].c {
        AboveAt(p, e, n, n - 1);
        var m := TopLimit(input, table, start, p, n - 1);
        NotIgnored(input, table, start, p, m, n - 1);
        InBounds(input, table, start, p, m, n - 1);
        Outer(p, e, m, n - 1);
        assert Fits(input, p, m);
      }
    }
  }

  /** Of two packages that are open, the one opened last is the inner one. */
  lemma Outer(p: seq<Conf>, e: int, m: int, n: int)
    requires Opens(p, e) && Opens(p, m) && e < n < |p| && m < n && Above(p, e, n) && Above(p, m, n)
    requires Depth(p, m) == Depth(p, n) - 1
    ensures e == m || (e < m && Above(p, e, m))
  {
    AboveAt(p, e, n, m);
    AboveAt(p, m, n, e);
    AboveAt(p, e, n, n);
  }

  lemma FitFinishes(input: seq<int>, table: Table, start: nat, p: seq<Conf>)
    requires TableOk(table) && Bytes(input) && IsPath(input, table, start, p) && Prompt(p) && Last(p).c == |input|
    requires AllFit(input, p)
    ensures AllFinished(input, p)
  {
    hide IsPath, TableOk, Bytes, Decode, Prompt;
    forall i | Real(p, i) ensures Finished(input, p, i) {
      assert Fits(input, p, i);
      if Above(p, i, |p| - 1) {
        InBounds(input, table, start, p, i, |p| - 1);
      } else {
        var j := MustClose(input, table, start, p, i, |p| - 1);
        assert Package(p, i, j);
        PackageLength(input, table, start, p, i, j);
      }
    }
  }

  // ---------------------------------------------------------------- if all have finished

  /** The step at which a package that has finished does so. */
  lemma Finish(input: seq<int>, p: seq<Conf>, i: int) returns (j: int)
    requires Opens(p, i) && Finished(input, p, i) && Last(p).c == |input|
    ensures i < j < |p| && p[j].c == EndOf(input, p, i) && Above(p, i, j)
    ensures Package(p, i, j) || j == |p| - 1
  {
    hide EndOf, Above;
    if x :| Package(p, i, x) && p[x].c == EndOf(input, p, i) {
      j := x;
    } else {
      j := |p| - 1;
    }
  }

  /** A package finishes before those around it. */
  lemma FinishInside(input: seq<int>, table: Table, start: nat, p: seq<Conf>, e: int, i: int, k: int, j: int)
    requires IsPath(input, table, start, p) && Opens(p, e) && Opens(p, i) && e < i && Above(p, e, i)
    requires i < j < |p| && Above(p, i, j) && e < k < |p| && (Package(p, e, k) || k == |p| - 1)
    ensures j <= k
  {
    hide IsPath;
    if Package(p, e, k) {
      DepthNext(input, table, start, p, k);
      AboveAt(p, e, i, i);
      AboveAt(p, e, i, if k + 1 <= i then k + 1 else i);
      AboveAt(p, i, j, if k <= j then k else j);
    }
  }

  lemma FinishedFits(input: seq<int>, table: Table, start: nat, p: seq<Conf>)
    requires IsPath(input, table, start, p) && Last(p).c == |input| && AllFinished(input, p)
    ensures AllFit(input, p)
  {
    hide IsPath, EndOf, Above, Ignored;
    forall i | Real(p, i) ensures Fits(input, p, i) {
      var j := Finish(input, p, i);
      Onwards(input, table, start, p, i, j);
      Onwards(input, table, start, p, j, |p| - 1);
      forall e | e < i && Real(p, e) && Above(p, e, i) ensures EndOf(input, p, i) <= EndOf(input, p, e) {
        var k := Finish(input, p, e);
        FinishInside(input, table, start, p, e, i, k, j);
        Onwards(input, table, start, p, j, k);
      }
    }
  }

  /** In an accepted parse all packages end where they say exactly if what they say fits. */
  lemma FinishedIff(input: seq<int>, table: Table, start: nat, p: seq<Conf>)
    requires TableOk(table) && Bytes(input) && IsPath(input, table, start, p) && Last(p).c == |input|
    ensures AllFinished(input, p) ==> AllFit(input, p)
    ensures Prompt(p) && AllFit(input, p) ==> AllFinished(input, p)
  {
    if AllFinished(input, p) {
      FinishedFits(input, table, start, p);
    }
    if Prompt(p) && AllFit(input, p) {
      FitFinishes(input, table, start, p);
    }
  }

  /** A limit that is left over and is not the end of the input belongs to a package that has
      not ended where it says. */
  lemma LeftOver(input: seq<int>, table: Table, start: nat, p: seq<Conf>)
    requires TableOk(table) && Bytes(input) && IsPath(input, table, start, p) && Last(p).c == |input|
    requires Last(p).s.limit != [] && Last(p).s.limit[0] != |input|
    ensures !AllFinished(input, p)
  {
    hide IsPath, TableOk, Bytes, EndOf, Closes;
    PathStart(input, table, start, p);
    var m := TopLimit(input, table, start, p, |p| - 1);
    forall j ensures !Closes(p, m, j) {
      NeverCloses(input, table, start, p, m, j);
    }
    assert Real(p, m) && !Finished(input, p, m);
  }

  // ---------------------------------------------------------------- tables that ignore at once

  /** A package may be ignored behind the elements `a` and `b`. */
  ghost predicate Allowed(a: Elem, b: Elem) {
    b == PkgLength || b == PkgPush || (b == OK && a == PkgPush)
  }

  /** Behind `a` and `b`, every package in the buffer is ignored at once or not at all. */
  ghost predicate Tight(a: Elem, b: Elem, buf: seq<Elem>)
    decreases |buf|
  {
    buf != [] ==> (buf[0] == PkgIgnore ==> Allowed(a, b)) && Tight(b, buf[0], buf[1..])
  }

  /** In every production a `PkgIgnore` stands right behind its `PkgLength`. */
  ghost predicate TightTable(table: Table) {
    forall id, path, byte, name :: TightAction(table(id, path, byte, name))
  }

  ghost predicate TightAction(act: Action) {
    act.Expand? ==> forall i :: 0 <= i < |act.alts| ==> forall a, id :: Tight(a, Term(id), act.alts[i])
  }

  /** What stands before matters for the first element only, unless it is a `PkgPush`. */
  lemma TightOther(a: Elem, b: Elem, x: Elem, y: Elem, buf: seq<Elem>)
    requires Tight(a, b, buf) && b != PkgPush && (Allowed(a, b) ==> Allowed(x, y))
    ensures Tight(x, y, buf)
  {
    if |buf| > 1 {
      var e, f, r := buf[0], buf[1], buf[1..];
      assert Tight(b, e, r) && r[0] == f;
      assert Tight(y, e, r) by {
        assert Tight(e, f, r[1..]);
        assert Allowed(b, e) ==> Allowed(y, e);
      }
    }
  }

  lemma {:induction false} TightAppend(a: Elem, b: Elem, u: seq<Elem>, x: Elem, e: Elem, v: seq<Elem>)
    requires Tight(a, b, u) && Tight(x, e, v) && e.Term?
    ensures Tight(a, b, u + v)
    decreases |u|
  {
    if u == [] {
      TightOther(x, e, a, b, v);
      assert u + v == v;
    } else {
      TightAppend(b, u[0], u[1..], x, e, v);
      assert (u + v)[1..] == u[1..] + v;
    }
  }

  lemma TightMark(a: Elem, e: Elem, note: bool, rest: seq<Elem>)
    requires Tight(a, e, rest) && e.Term?
    ensures Tight(a, e, (if note then [OK] else []) + rest)
  {
    if note {
      TightOther(a, e, e, OK, rest);
      assert ([OK] + rest)[1..] == rest;
    } else {
      assert [] + rest == rest;
    }
  }

  lemma TightGroup(a: Elem, n: nat, note: bool, rest: seq<Elem>)
    requires n <= 3 && Tight(a, PkgLength, rest)
    ensures Tight(a, PkgLength, Group(n) + (if note then [OK] else []) + rest)
  {
    hide Tight, Group;
    var ok := if note then [OK] else [];
    forall y: Elem ensures Tight(y, PkgPush, ok + rest) {
      TightPushed(a, y, note, rest);
    }
    GroupTail(a, PkgLength, n, 0, ok + rest);
    assert Group(n)[0..] == Group(n);
    assert Group(n) + ok + rest == Group(n) + (ok + rest);
  }

  lemma TightPushed(a: Elem, y: Elem, note: bool, rest: seq<Elem>)
    requires Tight(a, PkgLength, rest)
    ensures Tight(y, PkgPush, (if note then [OK] else []) + rest)
  {
    if note {
      TightOther(a, PkgLength, PkgPush, OK, rest);
      assert ([OK] + rest)[1..] == rest;
    } else {
      TightOther(a, PkgLength, y, PkgPush, rest);
      assert [] + rest == rest;
    }
  }

  lemma {:induction false} GroupTail(a: Elem, b: Elem, n: nat, k: nat, v: seq<Elem>)
    requires k <= n + 1 <= 4 && forall y: Elem :: Tight(y, PkgPush, v)
    ensures Tight(a, b, Group(n)[k..] + v)
    decreases n + 1 - k
  {
    InGroup(n, k);
    var g := Group(n);
    hide Group;
    assert (g[k..] + v)[0] == g[k] && (g[k..] + v)[1..] == g[k + 1..] + v;
    if k <= n {
      GroupTail(b, g[k], n, k + 1, v);
    } else {
      assert g[k + 1..] + v == v;
    }
  }

  lemma TightMove(input: seq<int>, table: Table, a: Elem, b: Elem, x: Conf, y: Conf)
    requires TightTable(table) && Moves(input, table, x, y) && Tight(a, b, x.s.buf)
    ensures x.s.buf != [] && Tight(b, Front(x), y.s.buf)
  {
    hide TightTable, Tight, TermOutcome;
    var name :| Successor(StepOutcome(input, table, x.s, x.c, name), x.c, y);
    TightRest(a, b, x.s.buf);
    var act := ActionFor(input, table, x.s, x.c, name);
    if x.s.buf[0] == PkgLength {
      TightLength(input, b, x, y);
    } else if x.s.buf[0].Term? && act.Expand? {
      TightTerm(input, table, b, x, y, name);
    } else {
      SameBuf(input, x, act, y);
    }
  }

  lemma OnPath(input: seq<int>, table: Table, start: nat, p: seq<Conf>, n: nat)
    requires IsPath(input, table, start, p) && n < |p| - 1
    ensures p[n].s.buf != []
  {
    assert Moves(input, table, p[n], p[n + 1]);
  }

  lemma SameBuf(input: seq<int>, x: Conf, act: Action, y: Conf)
    requires x.s.buf != [] && x.s.buf[0] != PkgLength && !(x.s.buf[0].Term? && act.Expand?)
    requires Successor(FrontOutcome(input, x.s.(buf := x.s.buf[1..]), x.s.buf[0], act, x.c), x.c, y)
    ensures y.s.buf == x.s.buf[1..]
  {
  }

  lemma TightLength(input: seq<int>, b: Elem, x: Conf, y: Conf)
    requires x.s.buf != [] && x.s.buf[0] == PkgLength && Tight(b, PkgLength, x.s.buf[1..])
    requires Successor(FrontOutcome(input, x.s.(buf := x.s.buf[1..]), PkgLength, Skip, x.c), x.c, y)
    ensures Tight(b, PkgLength, y.s.buf)
  {
    hide Tight, Group;
    TightGroup(b, Byte(input, x.c) / 64, x.s.path == [] || x.s.path[0] != PkgLength, x.s.buf[1..]);
  }

  lemma TightTerm(input: seq<int>, table: Table, b: Elem, x: Conf, y: Conf, name: bool)
    requires TightTable(table) && x.s.buf != [] && x.s.buf[0].Term? && Tight(b, x.s.buf[0], x.s.buf[1..])
    requires var act := ActionFor(input, table, x.s, x.c, name);
             act.Expand? && Successor(TermOutcome(x.s.(buf := x.s.buf[1..]), x.s.buf[0], act, x.c), x.c, y)
    ensures Tight(b, x.s.buf[0], y.s.buf)
  {
    hide TightTable, Tight;
    var e, rest, act := x.s.buf[0], x.s.buf[1..], ActionFor(input, table, x.s, x.c, name);
    var note := x.s.path == [] || x.s.path[0] != e;
    var i := ForkedBuf(x.s.(buf := rest), e, act, x.c, y);
    hide TermOutcome, ActionFor;
    TightAlt(table, e.id, x.s.path, Byte(input, x.c), name, i, b);
    TightMark(b, e, note, rest);
    TightAppend(b, e, act.alts[i], b, e, (if note then [OK] else []) + rest);
  }

  lemma ForkedBuf(s: State, e: Elem, act: Action, c: int, y: Conf) returns (i: nat)
    requires act.Expand? && Successor(TermOutcome(s, e, act, c), c, y)
    ensures i < |act.alts|
    ensures y.s.buf == act.alts[i] + ((if s.path == [] || s.path[0] != e then [OK] else []) + s.buf)
  {
    var ss := TermOutcome(s, e, act, c).ss;
    i :| 0 <= i < |ss| && ss[i] == y.s;
  }

  lemma TightRest(a: Elem, b: Elem, buf: seq<Elem>)
    requires Tight(a, b, buf) && buf != []
    ensures Tight(b, buf[0], buf[1..]) && (buf[0] == PkgIgnore ==> Allowed(a, b))
  {
  }

  lemma TightAlt(table: Table, id: nat, path: seq<Elem>, byte: int, name: bool, i: nat, a: Elem)
    requires TightTable(table) && table(id, path, byte, name).Expand? && i < |table(id, path, byte, name).alts|
    ensures Tight(a, Term(id), table(id, path, byte, name).alts[i])
  {
    assert TightAction(table(id, path, byte, name));
  }

  ghost function FrontAt(p: seq<Conf>, n: int): Elem {
    if 0 <= n < |p| then Front(p[n]) else OK
  }

  lemma {:induction false} TightPath(input: seq<int>, table: Table, start: nat, p: seq<Conf>, n: nat)
    requires TightTable(table) && IsPath(input, table, start, p) && n < |p|
    ensures Tight(FrontAt(p, n - 2), FrontAt(p, n - 1), p[n].s.buf)
  {
    hide TightTable, Moves;
    if n == 0 {
      assert p[0].s.buf == [Term(start)] && [Term(start)][1..] == [];
    } else {
      TightPath(input, table, start, p, n - 1);
      assert Moves(input, table, p[n - 1], p[n - 1 + 1]);
      TightMove(input, table, FrontAt(p, n - 3), FrontAt(p, n - 2), p[n - 1], p[n]);
    }
  }

  /** With such a table no parse reads a byte in a package that it will ignore. */
  lemma TightPrompt(input: seq<int>, table: Table, start: nat, p: seq<Conf>)
    requires TightTable(table) && IsPath(input, table, start, p)
    ensures Prompt(p)
  {
    hide TightTable, Moves, IsPath;
    forall j | 0 <= j < |p| - 1 && Front(p[j]) == PkgIgnore
      ensures PromptAt(p, j)
    {
      TightPath(input, table, start, p, j);
      OnPath(input, table, start, p, j);
      if j > 0 && Front(p[j - 1]) == PkgLength {
        AfterLength(input, table, start, p, j - 1);
      }
    }
  }

  /** A package length is followed by its first byte. */
  lemma AfterLength(input: seq<int>, table: Table, start: nat, p: seq<Conf>, n: nat)
    requires IsPath(input, table, start, p) && n < |p| - 1 && Front(p[n]) == PkgLength
    ensures Front(p[n + 1]) == Len0
  {
    var x, y := p[n], p[n + 1];
    assert Moves(input, table, x, y);
    var name :| Successor(StepOutcome(input, table, x.s, x.c, name), x.c, y);
    InGroup(Byte(input, x.c) / 64, 0);
  }

  /** What an accepted parse means. */
  lemma ParseSpans(input: seq<int>, table: Table, start: nat, p: seq<Conf>)
    requires TableOk(table) && Bytes(input) && IsPath(input, table, start, p) && Last(p).c == |input|
    ensures AllFinished(input, p) ==> AllFit(input, p)
    ensures TightTable(table) ==> (AllFinished(input, p) <==> AllFit(input, p))
  {
    hide IsPath, TableOk, Bytes, AllFinished, AllFit, TightTable, Prompt;
    FinishedIff(input, table, start, p);
    if TightTable(table) {
      TightPrompt(input, table, start, p);
    }
  }
}
