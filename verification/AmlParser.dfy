/** The engine of the AML parser: all parse states advance over the input byte by byte, and
    share their stacks. */
module AmlParser {
  import opened List
  import opened SharedStacks
  import opened AmlModel
  import opened AmlRuns
  import opened AmlSpans
  import opened AmlGrammar

  /** The states in `head` are to be worked on at this byte, those in `ok` have read it, and
      those in `cur` are being worked on. */
  ghost predicate Config(st: map<int, State>, head: seq<int>, ok: seq<int>, cur: set<int>) {
    && Distinct(head) && Distinct(ok)
    && (forall q :: q in st <==> q in head || q in ok || q in cur) && (forall q :: q in st ==> q > 0)
    && (forall q :: q in head ==> q !in ok && q !in cur)
    && (forall q :: q in ok ==> q !in cur)
  }

  /** Every state is the end of a path from the start to the byte it is at. */
  ghost predicate Traced(input: seq<int>, table: Table, start: nat, st: map<int, State>, trace: map<int, seq<Conf>>,
                         ok: seq<int>, c: int) {
    forall q :: q in st ==> q in trace && Ends(input, table, start, trace[q], Conf(st[q], if q in ok then c + 1 else c))
  }

  ghost predicate Ends(input: seq<int>, table: Table, start: nat, p: seq<Conf>, x: Conf) {
    IsPath(input, table, start, p) && Last(p) == x
  }

  function Get(m: map<int, int>, q: int): int {
    if q in m then m[q] else 0
  }

  ghost function Join(path: map<int, seq<Elem>>, buf: map<int, seq<Elem>>, limit: map<int, seq<int>>,
                      pkgc: map<int, int>, pkglen: map<int, int>): map<int, State> {
    map q | q in path && q in buf && q in limit :: State(path[q], buf[q], limit[q], Get(pkgc, q), Get(pkglen, q))
  }

  // ---------------------------------------------------------------- the effect of one step

  /** The states `ss` have been added in front, the last one first. */
  ghost predicate Forks(st: map<int, State>, head: seq<int>, st': map<int, State>, head': seq<int>, ss: seq<State>) {
    && |head'| == |ss| + |head| && head'[|ss|..] == head
    && (forall x :: x in st ==> x in st' && st'[x] == st[x])
    && (forall x :: x in st' ==> x in st || x in head'[..|ss|])
    && (forall i :: 0 <= i < |ss| ==> head'[i] !in st && head'[i] in st' && st'[head'[i]] == ss[|ss| - 1 - i])
  }

  /** The state `q` has had the outcome `o` and no other state has changed; `prune` is whether
      an equal state had read the byte before. */
  ghost predicate Became(st: map<int, State>, head: seq<int>, ok: seq<int>,
                         st': map<int, State>, head': seq<int>, ok': seq<int>, q: int, o: Outcome, prune: bool) {
    match o
    case Dead => st' == st - {q} && head' == head && ok' == ok
    case On(s) => st' == st[q := s] && head' == head && ok' == ok
    case Forked(ss) => Forks(st - {q}, head, st', head', ss) && ok' == ok
    case Read(s) =>
      && head' == head
      && (prune ==> st' == st - {q} && ok' == ok)
      && (!prune ==> st' == st[q := s] && ok' == [q] + ok)
  }

  lemma ForkNone(st: map<int, State>, head: seq<int>)
    ensures Forks(st, head, st, head, [])
  {
  }

  lemma ForkMore(st: map<int, State>, head: seq<int>, st': map<int, State>, head': seq<int>, ss: seq<State>, r: int,
                 s: State)
    requires Forks(st, head, st', head', ss) && r !in st'
    ensures Forks(st, head, st'[r := s], [r] + head', ss + [s])
  {
    var h := [r] + head';
    assert h[|ss| + 1..] == head'[|ss|..] && h[..|ss| + 1] == [r] + head'[..|ss|];
    forall i | 0 <= i < |ss| + 1
      ensures h[i] !in st && h[i] in st'[r := s] && st'[r := s][h[i]] == (ss + [s])[|ss| - i]
    {
      if i > 0 {
        assert h[i] == head'[i - 1];
      }
    }
  }

  lemma ForkDrop(st: map<int, State>, head: seq<int>, st': map<int, State>, head': seq<int>, ss: seq<State>, q: int)
    requires Forks(st, head, st', head', ss) && q in st
    ensures Forks(st - {q}, head, st' - {q}, head', ss)
  {
  }

  /** The state itself may change first. */
  lemma BecameFrom(st: map<int, State>, head: seq<int>, ok: seq<int>,
                   st': map<int, State>, head': seq<int>, ok': seq<int>, q: int, r: State, o: Outcome, prune: bool)
    requires q in st && Became(st[q := r], head, ok, st', head', ok', q, o, prune)
    ensures Became(st, head, ok, st', head', ok', q, o, prune)
  {
    assert st[q := r] - {q} == st - {q};
    if o.On? || o.Read? {
      assert st[q := r][q := o.s] == st[q := o.s];
    }
  }

  /** The paths after a step of `q`: its own goes on in whatever has come of it. */
  ghost function Extended(trace: map<int, seq<Conf>>, st: map<int, State>, st': map<int, State>, q: int,
                          c: int): map<int, seq<Conf>> {
    map x | x in st' :: if x in st && x != q then PathOf(trace, x) else PathOf(trace, q) + [Conf(st'[x], c)]
  }

  ghost function PathOf(trace: map<int, seq<Conf>>, q: int): seq<Conf> {
    if q in trace then trace[q] else []
  }

  lemma StepTraced(input: seq<int>, table: Table, start: nat, st: map<int, State>, head: seq<int>, ok: seq<int>,
                   st': map<int, State>, head': seq<int>, ok': seq<int>, trace: map<int, seq<Conf>>, q: int, c: int,
                     name: bool, prune: bool)
    requires Traced(input, table, start, st, trace, ok, c) && q in st && Config(st, head, ok, {q}) && 0 <= c < |input|
    requires Became(st, head, ok, st', head', ok', q, StepOutcome(input, table, st[q], c, name), prune)
    ensures var c' := if StepOutcome(input, table, st[q], c, name).Read? then c + 1 else c;
            Traced(input, table, start, st', Extended(trace, st, st', q, c'), ok', c)
  {
    hide IsPath, StepOutcome, Moves;
    var o := StepOutcome(input, table, st[q], c, name);
    var c' := if o.Read? then c + 1 else c;
    var trace' := Extended(trace, st, st', q, c');
    forall x | x in st'
      ensures x in trace' && Ends(input, table, start, trace'[x], Conf(st'[x], if x in ok' then c + 1 else c))
    {
      if !(x in st && x != q) {
        assert Successor(o, c, Conf(st'[x], c')) by {
          if o.Forked? {
            NewState(st - {q}, head, st', head', o.ss, x);
          }
        }
        MovesBy(input, table, Conf(st[q], c), Conf(st'[x], c'), name);
        assert Ends(input, table, start, trace[q], Conf(st[q], c));
        PathMore(input, table, start, trace[q], Conf(st'[x], c'));
      }
    }
  }

  lemma NewState(st: map<int, State>, head: seq<int>, st': map<int, State>, head': seq<int>, ss: seq<State>, x: int)
    requires Forks(st, head, st', head', ss) && x in st' && x !in st
    ensures st'[x] in ss
  {
    var i :| 0 <= i < |ss| && head'[i] == x;
  }

  lemma MovesBy(input: seq<int>, table: Table, x: Conf, y: Conf, name: bool)
    requires 0 <= x.c < |input| && Successor(StepOutcome(input, table, x.s, x.c, name), x.c, y)
    ensures Moves(input, table, x, y)
  {
  }

  // ---------------------------------------------------------------- nothing is missed

  /** The path is at some point where one of the states is now. */
  ghost predicate Meets(p: seq<Conf>, st: map<int, State>, ok: seq<int>, c: int) {
    exists i, q :: 0 <= i < |p| && q in st && p[i] == Conf(st[q], if q in ok then c + 1 else c)
  }

  /** Every path to the end of the input goes through one of the states. */
  ghost predicate Covered(input: seq<int>, table: Table, start: nat, st: map<int, State>, ok: seq<int>, c: int) {
    forall p :: p != [] && IsPath(input, table, start, p) && Last(p).c == |input| ==> Meets(p, st, ok, c)
  }

  /** The table does not look at captured names. */
  ghost predicate NameFree(table: Table) {
    forall id, path, byte :: table(id, path, byte, true) == table(id, path, byte, false)
  }

  /** No state is dropped for an equal one. */
  ghost predicate NeverPruned(choice: nat -> (bool, bool), n: nat) {
    forall i :: 0 <= i < n ==> !choice(i).1
  }

  lemma SameForNames(input: seq<int>, table: Table, s: State, c: int, name: bool, name': bool)
    requires NameFree(table)
    ensures StepOutcome(input, table, s, c, name) == StepOutcome(input, table, s, c, name')
  {
    if s.buf != [] && s.buf[0].Term? {
      assert table(s.buf[0].id, s.path, Byte(input, c), true) == table(s.buf[0].id, s.path, Byte(input, c), false);
    }
  }

  /** Every successor of the state that has been worked on is among the states. */
  lemma HasSuccessor(st: map<int, State>, head: seq<int>, ok: seq<int>, st': map<int, State>, head': seq<int>,
                     ok': seq<int>, q: int, o: Outcome, c: int, y: Conf) returns (x: int)
    requires q in st && Config(st, head, ok, {q}) && Became(st, head, ok, st', head', ok', q, o, false)
    requires Successor(o, c, y)
    ensures x in st' && y == Conf(st'[x], if x in ok' then c + 1 else c)
  {
    x := q;
    if o.Forked? {
      var i :| 0 <= i < |o.ss| && o.ss[i] == y.s;
      x := head'[|o.ss| - 1 - i];
      assert st'[x] == o.ss[i];
    }
  }

  lemma StepCovered(input: seq<int>, table: Table, start: nat, st: map<int, State>, head: seq<int>, ok: seq<int>,
                    st': map<int, State>, head': seq<int>, ok': seq<int>, q: int, c: int, name: bool)
    requires Covered(input, table, start, st, ok, c) && q in st && Config(st, head, ok, {q}) && c < |input|
      && NameFree(table)
    requires Became(st, head, ok, st', head', ok', q, StepOutcome(input, table, st[q], c, name), false)
    ensures Covered(input, table, start, st', ok', c)
  {
    hide StepOutcome, Moves, Successor, NameFree;
    var o := StepOutcome(input, table, st[q], c, name);
    forall p | p != [] && IsPath(input, table, start, p) && Last(p).c == |input| ensures Meets(p, st', ok', c) {
      var i, x :| 0 <= i < |p| && x in st && p[i] == Conf(st[x], if x in ok then c + 1 else c);
      if x == q {
        assert q !in ok && Moves(input, table, p[i], p[i + 1]);
        var name' := Named(input, table, p[i], p[i + 1]);
        SameForNames(input, table, st[q], c, name, name');
        var y := HasSuccessor(st, head, ok, st', head', ok', q, o, c, p[i + 1]);
      } else {
        OtherState(st, head, ok, st', head', ok', q, o, x);
      }
    }
  }

  lemma Named(input: seq<int>, table: Table, x: Conf, y: Conf) returns (name: bool)
    requires Moves(input, table, x, y)
    ensures Successor(StepOutcome(input, table, x.s, x.c, name), x.c, y)
  {
    name :| Successor(StepOutcome(input, table, x.s, x.c, name), x.c, y);
  }

  lemma OtherState(st: map<int, State>, head: seq<int>, ok: seq<int>, st': map<int, State>, head': seq<int>,
                   ok': seq<int>, q: int, o: Outcome, x: int)
    requires x in st && x != q && Became(st, head, ok, st', head', ok', q, o, false)
    ensures x in st' && st'[x] == st[x] && (x in ok' <==> x in ok)
  {
  }

  lemma NextCovered(input: seq<int>, table: Table, start: nat, st: map<int, State>, head0: seq<int>, ok0: seq<int>,
                    ok: seq<int>, c: int)
    requires Config(st, head0, ok0, {}) && Covered(input, table, start, st, ok0, if head0 == [] then c - 1 else c)
    requires ok == if head0 == [] then [] else ok0
    ensures Covered(input, table, start, st, ok, c)
  {
    forall p | p != [] && IsPath(input, table, start, p) && Last(p).c == |input| ensures Meets(p, st, ok, c) {
      var i, x :| 0 <= i < |p| && x in st
        && p[i] == Conf(st[x], if x in ok0 then (if head0 == [] then c - 1 else c) + 1
                               else if head0 == [] then c - 1 else c);
      assert x in head0 || x in ok0;
    }
  }

  lemma StartCovered(input: seq<int>, table: Table, start: nat, st: map<int, State>, ok: seq<int>, q: int)
    requires q in st && q !in ok && st[q] == StartState(start)
    ensures Covered(input, table, start, st, ok, 0)
  {
    forall p | p != [] && IsPath(input, table, start, p) && Last(p).c == |input| ensures Meets(p, st, ok, 0) {
      assert p[0] == Conf(st[q], 0);
    }
  }

  lemma NoneCovered(input: seq<int>, table: Table, start: nat, ok: seq<int>, c: int)
    requires Covered(input, table, start, map[], ok, c) && Bytes(input) && TableOk(table)
    ensures !Derivable(input, table, start)
  {
    hide TableOk, Bytes, IsPath;
    ReachableIff(input, table, start);
  }

  /** If `full`, the parse has missed nothing so far. */
  ghost predicate Complete(full: bool, input: seq<int>, table: Table, start: nat, st: map<int, State>, ok: seq<int>,
                           c: int) {
    full ==> Covered(input, table, start, st, ok, c) && NameFree(table)
  }

  lemma TurnComplete(full: bool, input: seq<int>, table: Table, start: nat, st: map<int, State>, head: seq<int>,
                     ok: seq<int>, st': map<int, State>, head': seq<int>, ok': seq<int>, q: int, c: int, name: bool,
                       prune: bool)
    requires Complete(full, input, table, start, st, ok, c) && q in st && Config(st, head, ok, {q}) && c < |input|
    requires Became(st, head, ok, st', head', ok', q, StepOutcome(input, table, st[q], c, name), prune)
    requires full ==> !prune
    ensures Complete(full, input, table, start, st', ok', c)
  {
    hide Covered, NameFree, Became, StepOutcome, Config;
    if full {
      StepCovered(input, table, start, st, head, ok, st', head', ok', q, c, name);
    }
  }

  lemma NextComplete(full: bool, input: seq<int>, table: Table, start: nat, st: map<int, State>, head0: seq<int>,
                     ok0: seq<int>, ok: seq<int>, c: int)
    requires Config(st, head0, ok0, {})
    requires Complete(full, input, table, start, st, ok0, if head0 == [] then c - 1 else c)
    requires ok == if head0 == [] then [] else ok0
    ensures Complete(full, input, table, start, st, ok, c)
  {
    hide Covered, NameFree, Config;
    if full {
      NextCovered(input, table, start, st, head0, ok0, ok, c);
    }
  }

  lemma EndComplete(full: bool, input: seq<int>, table: Table, start: nat, ok: seq<int>, c: int)
    requires Complete(full, input, table, start, map[], ok, c) && Bytes(input) && TableOk(table)
    ensures full ==> !Derivable(input, table, start)
  {
    hide Covered, NameFree, Bytes, TableOk, Derivable;
    if full {
      NoneCovered(input, table, start, ok, c);
    }
  }

  lemma StartComplete(full: bool, input: seq<int>, table: Table, start: nat, st: map<int, State>, ok: seq<int>)
    requires full ==> NameFree(table) && exists q :: q in st && q !in ok && st[q] == StartState(start)
    ensures Complete(full, input, table, start, st, ok, 0)
  {
    hide Covered, NameFree;
    if full {
      var q :| q in st && q !in ok && st[q] == StartState(start);
      StartCovered(input, table, start, st, ok, q);
    }
  }

  /** What an accepted path means. */
  lemma PathMeans(input: seq<int>, table: Table, start: nat, p: seq<Conf>)
    requires TableOk(table) && Bytes(input) && IsPath(input, table, start, p) && Last(p).c == |input|
    ensures WellNested(input, p) && Derivable(input, table, start)
    ensures AllFinished(input, p) ==> AllFit(input, p)
    ensures TightTable(table) ==> (AllFinished(input, p) <==> AllFit(input, p))
    ensures AllClosed(p) <==> Sum(Last(p).s.buf) == 0
    ensures AllClosed(p) <==> Last(p).s.limit == []
  {
    hide TableOk, Bytes, IsPath, WellNested, AllClosed, AllFinished, AllFit, TightTable, Derivable;
    PathNested(input, table, start, p);
    ParseSpans(input, table, start, p);
    AllClosedIff(input, table, start, p);
    Accepted(input, table, start, p);
  }

  class Parser {
    const input: seq<int>
    const table: Table
    const start: nat
    const path: Stacks<Elem>
    const buf: Stacks<Elem>
    const limit: Stacks<int>

    var head: seq<int>
    var ok: seq<int>
    var c: int
    var pkgc: map<int, int>
    var pkglen: map<int, int>

    /** What each state has been through. */
    ghost var trace: map<int, seq<Conf>>

    ghost predicate Stacked()
      reads this, path, buf, limit
    {
      && path.Valid() && buf.Valid() && limit.Valid() && path != buf && TableOk(table) && Bytes(input)
      && path.View().Keys == buf.View().Keys == limit.View().Keys
    }

    /** All parse states. */
    ghost function All(): map<int, State>
      requires Stacked()
      reads this, path, buf, limit
    {
      Join(path.View(), buf.View(), limit.View(), pkgc, pkglen)
    }

    /** The lists and stacks are in order, with the states in `cur` on no list. */
    ghost predicate Listed(cur: set<int>)
      reads this, path, buf, limit
    {
      Stacked() && Config(All(), head, ok, cur)
    }

    /** One of the states is that of the start. */
    ghost predicate Begins()
      reads this, path, buf, limit
    {
      Stacked() && exists q :: q in All() && q !in ok && All()[q] == StartState(start)
    }

    ghost predicate Valid(cur: set<int>)
      reads this, path, buf, limit
    {
      Listed(cur) && Traced(input, table, start, All(), trace, ok, c)
    }

    /** The start of `parser`: one state that is to derive the whole table, `start`. */
    constructor (input: seq<int>, table: Table, start: nat)
      requires TableOk(table) && Bytes(input)
      ensures Valid({}) && c == 0 && this.input == input && this.table == table && this.start == start
      ensures All() == map[1 := StartState(start)] && head == [1] && ok == []
      ensures fresh(path) && fresh(buf) && fresh(limit)
    {
      hide Chained, Counted, ViewOf, TableOk, Bytes, Join, Config;
      this.input, this.table, this.start := input, table, start;
      path := new Stacks<Elem>();
      buf := new Stacks<Elem>();
      limit := new Stacks<int>();
      head, ok, c, pkgc, pkglen := [1], [], 0, map[], map[];
      trace := map[1 := [Conf(StartState(start), 0)]];
      new;
      Begin();
      assert Ends(input, table, start, trace[1], Conf(StartState(start), 0));
    }

    method Begin()
      requires path.Valid() && buf.Valid() && limit.Valid() && path != buf && TableOk(table) && Bytes(input)
      requires path.View() == map[] && buf.View() == map[] && limit.View() == map[]
      requires head == [1] && ok == [] && c == 0 && pkgc == map[] && pkglen == map[]
      modifies path, buf, limit
      ensures Listed({}) && All() == map[1 := StartState(start)]
    {
      hide Chained, Counted, ViewOf, TableOk, Bytes, Join, Config;
      path.New(1);
      buf.New(1);
      limit.New(1);
      buf.Push(1, Term(start));
      StartConfig(start);
      assert [Term(start)] + [] == [Term(start)];
      assert buf.View() == map[1 := []][1 := [Term(start)] + []];
      assert path.View() == map[1 := []] && buf.View() == map[1 := [Term(start)]] && limit.View() == map[1 := []];
    }

    /** `parsedata_free` */
    method FreeAmong(q: int, ghost keep: set<int>)
      requires Listed(keep + {q}) && q !in keep
      modifies path, buf, limit
      ensures Listed(keep) && All() == old(All()) - {q}
    {
      hide Chained, Counted, ViewOf, TableOk, Bytes, Join, Config;
      ghost var p, b, l := path.View(), buf.View(), limit.View();
      DropState(p, b, l, pkgc, pkglen, head, ok, keep, q);
      path.Drop(q);
      buf.Drop(q);
      limit.Drop(q);
    }

    method FreeState(q: int)
      requires Listed({q})
      modifies path, buf, limit
      ensures Listed({}) && All() == old(All()) - {q}
    {
      assert {} + {q} == {q};
      FreeAmong(q, {});
    }

    /** `getbuf`: the next state to work on, moving on to the next byte when all states have
        read this one; -1 when there is none. */
    method GetBuf(ghost keep: set<int>) returns (q: int)
      requires Listed(keep)
      modifies this`head, this`ok, this`c
      ensures Stacked() && c == old(c) + (if old(head) == [] then 1 else 0) && All() == old(All())
      ensures q == -1 ==> Listed(keep) && head == [] && ok == [] && old(head) == [] && old(ok) == []
      ensures q != -1 ==> Listed(keep + {q}) && q !in keep && q in All() && q > 0
      ensures q != -1 ==>
        [q] + head == (if old(head) == [] then old(ok) else old(head)) && ok == if old(head) == [] then [] else old(ok)
    {
      hide Chained, Counted, ViewOf, TableOk, Bytes, Join, Config;
      ghost var st := All();
      if head == [] {
        NextByte(st, ok, keep);
        head, ok, c := ok, [], c + 1;
      }
      if head == [] {
        return -1;
      }
      TakeState(st, head, ok, keep);
      q := head[0];
      head := head[1..];
    }

    /** `addbufsub`: a copy of the state `q`, which has just taken the element `e` off its
        buffer, that is to derive `alt` in its place. */
    method AddBuf(q: int, e: Elem, alt: seq<Elem>) returns (r: int)
      requires Listed({q}) && q in All()
      modifies this`head, path, buf, limit
      ensures Listed({q}) && r !in old(All()) && All() == old(All())[r := Derived(old(All()[q]), e, alt)] && r != q
      ensures head == [r] + old(head)
    {
      hide Chained, Counted, ViewOf, TableOk, Bytes, Join, Config, Stacks.View;
      ghost var p, b, l, s := path.View(), buf.View(), limit.View(), All()[q];
      JoinAt(p, b, l, pkgc, pkglen, q);
      r := NewState();
      AddState(p, b, l, pkgc, pkglen, head, ok, q, r, Derived(s, e, alt));
      CopyStacks(q, r, e, alt);
      head := [r] + head;
    }

    /** `addbufsub`, the memory for the new state. */
    method NewState() returns (r: int)
      requires path.Valid()
      ensures r > 0 && r !in path.View() && r !in pkgc && r !in pkglen
    {
      hide Chained, Counted, ViewOf;
      path.Keys();
      ghost var w := FreshAbove(path.head.Keys + pkgc.Keys + pkglen.Keys);
      assert w !in path.head && w !in pkgc && w !in pkglen;
      r :| r > 0 && r !in path.head && r !in pkgc && r !in pkglen;
    }

    /** `addbufsub`, the three stacks. */
    method CopyStacks(q: int, r: int, e: Elem, alt: seq<Elem>)
      requires Stacked() && q in path.View() && r !in path.View()
      modifies path, buf, limit
      ensures Stacked() && q in old(buf.View()) && q in old(limit.View())
      ensures var t := Derived(State(old(path.View())[q], old(buf.View())[q], old(limit.View())[q], 0, 0), e, alt);
              && path.View() == old(path.View())[r := t.path] && buf.View() == old(buf.View())[r := t.buf]
              && limit.View() == old(limit.View())[r := t.limit]
    {
      hide Chained, Counted, ViewOf, TableOk, Bytes, Stacks.View;
      assert path.View().Keys == buf.View().Keys == limit.View().Keys;
      var note := CopyPath(q, r, e);
      CopyBuf(q, r, alt, note);
      limit.Clone(q, r);
    }

    /** `addbufsub`, the path. */
    method CopyPath(q: int, r: int, e: Elem) returns (note: bool)
      requires path.Valid() && q in path.View() && r !in path.View()
      modifies path
      ensures path.Valid() && note == (old(path.View())[q] == [] || old(path.View())[q][0] != e)
      ensures path.View() == old(path.View())[r := (if note then [e] else []) + old(path.View())[q]]
    {
      hide Chained, Counted, ViewOf;
      path.Clone(q, r);
      note := path.IsEmpty(r);
      if !note {
        var t := path.Peek(r);
        note := t != e;
      }
      if note {
        path.Push(r, e);
      }
      ghost var v := old(path.View())[q];
      assert [] + v == v;
    }

    /** `addbufsub`, the buffer. */
    method CopyBuf(q: int, r: int, alt: seq<Elem>, note: bool)
      requires buf.Valid() && q in buf.View() && r !in buf.View()
      modifies buf
      ensures buf.Valid() && buf.View() == old(buf.View())[r := alt + (if note then [OK] else []) + old(buf.View())[q]]
    {
      hide Chained, Counted, ViewOf;
      ghost var view, v := buf.View(), buf.View()[q];
      buf.Clone(q, r);
      if note {
        buf.Push(r, OK);
      }
      ghost var ok := if note then [OK] else [];
      assert [] + v == v;
      var i := |alt|;
      assert alt[i..] + ok + v == ok + v;
      while i > 0
        invariant 0 <= i <= |alt| && buf.Valid() && buf.View() == view[r := alt[i..] + ok + v]
      {
        assert [alt[i - 1]] + (alt[i..] + ok + v) == alt[i - 1..] + ok + v;
        buf.Push(r, alt[i - 1]);
        i := i - 1;
      }
      assert alt[0..] == alt;
    }

    /** The label `ok`: the state has read the byte, unless its innermost package ends here or
        an equal state has got this far already. */
    method ReadByte(q: int, prune: bool)
      requires Listed({q}) && q in All()
      modifies this`ok, path, buf, limit
      ensures Listed({})
      ensures Became(old(All()), old(head), old(ok), All(), head, ok, q, ReadOutcome(old(All()[q]), c), prune)
    {
      hide Chained, Counted, ViewOf, TableOk, Bytes, Join, Config;
      ghost var st := All();
      JoinAt(path.View(), buf.View(), limit.View(), pkgc, pkglen, q);
      var none := limit.IsEmpty(q);
      if !none {
        var t := limit.Peek(q);
        if t == c {
          FreeState(q);
          return;
        }
      }
      if prune {
        FreeState(q);
      } else {
        KeepState(All(), head, ok, q);
        assert st[q := st[q]] == st;
        ok := [q] + ok;
      }
    }

    /** A term: the alternatives of its production, or its byte. */
    method WorkTerm(q: int, e: Elem, name: bool, prune: bool) returns (again: bool)
      requires Listed({q}) && q in All() && e.Term? && 0 <= c < |input|
      modifies this`head, this`ok, path, buf, limit
      ensures if again then Listed({q}) else Listed({})
      ensures var s := old(All()[q]); var o := TermOutcome(s, e, table(e.id, s.path, Byte(input, c), name), c);
              (again <==> o.On?) && Became(old(All()), old(head), old(ok), All(), head, ok, q, o, prune)
    {
      hide Chained, Counted, ViewOf, Bytes, Join, Config, TableOk, Forks;
      ghost var st, s := All(), All()[q];
      JoinAt(path.View(), buf.View(), limit.View(), pkgc, pkglen, q);
      var names := path.Read(q);
      var act := table(e.id, names, Byte(input, c), name);
      again := false;
      match act {
        case Expand(alts) =>
          Fork(q, e, alts);
        case Shift =>
          ReadByte(q, prune);
        case Fail =>
          FreeState(q);
        case Skip =>
          assert st[q := s] == st;
          again := true;
      }
    }

    /** One state for each alternative, in place of the state `q`. */
    method Fork(q: int, e: Elem, alts: seq<seq<Elem>>)
      requires Listed({q}) && q in All()
      modifies this`head, path, buf, limit
      ensures Listed({})
      ensures var o := TermOutcome(old(All()[q]), e, Expand(alts), c);
              Became(old(All()), old(head), ok, All(), head, ok, q, o, false)
    {
      hide Chained, Counted, ViewOf, Bytes, Join, Config, TableOk, Forks, Stacks.View, Derived;
      ghost var st, s := All(), All()[q];
      ghost var ss := TermOutcome(s, e, Expand(alts), c).ss;
      var i := 0;
      ForkNone(st, head);
      while i < |alts|
        invariant 0 <= i <= |alts| && Listed({q}) && q in All() && All()[q] == s
        invariant Forks(st, old(head), All(), head, ss[..i])
      {
        ghost var st', head' := All(), head;
        var r := AddBuf(q, e, alts[i]);
        ForkMore(st, old(head), st', head', ss[..i], r, Derived(s, e, alts[i]));
        assert ss[..i] + [ss[i]] == ss[..i + 1];
        i := i + 1;
      }
      assert ss[..i] == ss;
      ForkDrop(st, old(head), All(), head, ss, q);
      FreeState(q);
    }

    /** A byte of a package length. */
    method WorkLength(q: int, k: nat, prune: bool, ghost h: Hist)
      requires Listed({q}) && q in All() && k <= 3 && 0 <= c < |input|
      requires StateOk(input, All()[q].(buf := [LenAt(k)] + All()[q].buf), h, c)
      modifies this`pkgc, this`pkglen, this`ok, path, buf, limit
      ensures Listed({})
      ensures Became(old(All()), old(head), old(ok), All(), head, ok, q, LengthOutcome(input, old(All()[q]), k, c),
        prune)
    {
      hide Chained, Counted, ViewOf, TableOk, Join, Config, StateOk, Became, Stacks.View;
      ghost var st, s := All(), All()[q];
      StoreLength(q, k, h);
      ghost var t := All()[q];
      ReadByte(q, prune);
      BecameFrom(st, head, old(ok), All(), head, ok, q, t, LengthOutcome(input, s, k, c), prune);
    }

    /** The fields `pkglen_c` and `pkglen` after byte `k` of a length. */
    method StoreLength(q: int, k: nat, ghost h: Hist)
      requires Listed({q}) && q in All() && k <= 3 && 0 <= c < |input|
      requires StateOk(input, All()[q].(buf := [LenAt(k)] + All()[q].buf), h, c)
      modifies this`pkgc, this`pkglen
      ensures Listed({q}) && q in All()
      ensures var s := old(All()[q]); var start := if k == 0 then c else s.pkgc;
              All() == old(All())[q := s.(pkgc := start, pkglen := Partial(input, start, k + 1))]
    {
      hide Chained, Counted, ViewOf, TableOk, Join, Config, StateOk, Stacks.View;
      ghost var st, s := All(), All()[q];
      JoinAt(path.View(), buf.View(), limit.View(), pkgc, pkglen, q);
      var b := input[c];
      var len := Get(pkglen, q);
      ghost var pc := if k == 0 then c else s.pkgc;
      LengthSoFar(input, s.(buf := [LenAt(k)] + s.buf), h, c, k);
      match k {
        case 0 =>
          pkgc := pkgc[q := c];
          len := b;
        case 1 => len := len % 16 + 16 * b;
        case 2 => len := len + 0x1000 * b;
        case _ => len := len + 0x10_0000 * b;
      }
      pkglen := pkglen[q := len];
      ChangeState(st, head, ok, q, s.(pkgc := pc, pkglen := len));
      JoinFields(path.View(), buf.View(), limit.View(), old(pkgc), old(pkglen), pkgc, pkglen, q);
    }

    /** The end of a package length: its limit goes on the stack. */
    method WorkPush(q: int)
      requires Listed({q}) && q in All()
      modifies limit
      ensures Listed({q})
      ensures var s := old(All()[q]); All() == old(All())[q := s.(limit := [s.pkgc + s.pkglen] + s.limit)]
    {
      hide Chained, Counted, ViewOf, TableOk, Join, Config;
      ghost var p, b, l, st, s := path.View(), buf.View(), limit.View(), All(), All()[q];
      JoinAt(p, b, l, pkgc, pkglen, q);
      limit.Push(q, Get(pkgc, q) + Get(pkglen, q));
      JoinLimit(p, b, l, pkgc, pkglen, q, limit.View()[q]);
      ChangeState(st, head, ok, q, s.(limit := [s.pkgc + s.pkglen] + s.limit));
    }

    /** A limit comes off: unchecked for `PkgIgnore`, at its own position for `PkgEnd`. */
    method WorkPop(q: int, e: Elem, ghost h: Hist) returns (again: bool, underflow: bool)
      requires Listed({q}) && q in All() && (e == PkgIgnore || e == PkgEnd)
      requires StateOk(input, All()[q].(buf := [e] + All()[q].buf), h, c)
      modifies path, buf, limit
      ensures !underflow
      ensures if again then Listed({q}) else Listed({})
      ensures again <==> PopOutcome(old(All()[q]), e, c).On?
      ensures Became(old(All()), head, ok, All(), head, ok, q, PopOutcome(old(All()[q]), e, c), false)
    {
      hide Chained, Counted, ViewOf, TableOk, Join, Config, StateOk;
      ghost var p, b, l, st, s := path.View(), buf.View(), limit.View(), All(), All()[q];
      JoinAt(p, b, l, pkgc, pkglen, q);
      NoUnderflow(input, s.(buf := [e] + s.buf), h, c);
      underflow := limit.IsEmpty(q);
      if underflow {
        return false, underflow;
      }
      var t := limit.Pop(q);
      JoinLimit(p, b, l, pkgc, pkglen, q, limit.View()[q]);
      ChangeState(st, head, ok, q, s.(limit := s.limit[1..]));
      again := e == PkgIgnore || t == c;
      if !again {
        FreeState(q);
        BecameFrom(st, head, ok, All(), head, ok, q, s.(limit := s.limit[1..]), Dead, false);
      }
    }

    /** An `OK` takes an element off the path. */
    method WorkOk(q: int, ghost h: Hist) returns (underflow: bool)
      requires Listed({q}) && q in All() && StateOk(input, All()[q].(buf := [OK] + All()[q].buf), h, c)
      modifies path
      ensures !underflow && Listed({q})
      ensures var s := old(All()[q]); s.path != [] && All() == old(All())[q := s.(path := s.path[1..])]
    {
      hide Chained, Counted, ViewOf, TableOk, Join, Config, StateOk;
      ghost var p, b, l, st, s := path.View(), buf.View(), limit.View(), All(), All()[q];
      JoinAt(p, b, l, pkgc, pkglen, q);
      NoUnderflow(input, s.(buf := [OK] + s.buf), h, c);
      underflow := path.IsEmpty(q);
      if underflow {
        return;
      }
      var t := path.Pop(q);
      JoinPath(p, b, l, pkgc, pkglen, q, path.View()[q]);
      ChangeState(st, head, ok, q, s.(path := s.path[1..]));
    }

    /** The length of a package: its lead byte says how many bytes it has. */
    method WorkPkgLength(q: int)
      requires Listed({q}) && q in All() && 0 <= c < |input|
      modifies this`head, path, buf, limit
      ensures Listed({})
      ensures Became(old(All()), old(head), ok, All(), head, ok, q,
        FrontOutcome(input, old(All()[q]), PkgLength, Skip, c), false)
    {
      hide Chained, Counted, ViewOf, TableOk, Join, Config, Forks;
      ghost var st, s := All(), All()[q];
      ByteRange(input, c);
      var n := input[c] / 64;
      var d := AddBuf(q, PkgLength, Group(n));
      ghost var t := Derived(s, PkgLength, Group(n));
      ForkNone(st, old(head));
      ForkMore(st, old(head), st, old(head), [], d, t);
      assert [] + [t] == [t];
      ForkDrop(st, old(head), All(), head, [t], q);
      FreeState(q);
    }

    /** The element `e` that the state `q` has taken off its buffer. */
    method WorkOn(q: int, e: Elem, name: bool, prune: bool, ghost h: Hist) returns (again: bool, underflow: bool)
      requires Listed({q}) && q in All() && 0 <= c < |input|
      requires StateOk(input, All()[q].(buf := [e] + All()[q].buf), h, c)
      modifies this`head, this`ok, this`pkgc, this`pkglen, path, buf, limit
      ensures !underflow && if again then Listed({q}) else Listed({})
      ensures var s := old(All()[q]);
              var o := FrontOutcome(input, s, e, ActionFor(input, table, s.(buf := [e] + s.buf), c, name), c);
              (again <==> o.On?) && Became(old(All()), old(head), old(ok), All(), head, ok, q, o, prune)
    {
      hide Chained, Counted, ViewOf, TableOk, Join, Config, StateOk, Forks, TermOutcome, LengthOutcome, PopOutcome;
      again, underflow := false, false;
      match e {
        case OK =>
          underflow := WorkOk(q, h);
          again := true;
        case PkgPush =>
          WorkPush(q);
          again := true;
        case PkgIgnore | PkgEnd =>
          again, underflow := WorkPop(q, e, h);
        case Term(_) =>
          again := WorkTerm(q, e, name, prune);
        case PkgLength =>
          WorkPkgLength(q);
        case Len0 =>
          WorkLength(q, 0, prune, h);
        case Len1 =>
          WorkLength(q, 1, prune, h);
        case Len2 =>
          WorkLength(q, 2, prune, h);
        case Len3 =>
          WorkLength(q, 3, prune, h);
      }
    }

    /** The element in front comes off the buffer and is acted on. */
    method WorkFront(q: int, name: bool, prune: bool, ghost h: Hist) returns (again: bool, underflow: bool)
      requires Listed({q}) && q in All() && 0 <= c < |input| && StateOk(input, All()[q], h, c)
      modifies this`head, this`ok, this`pkgc, this`pkglen, path, buf, limit
      ensures !underflow && if again then Listed({q}) else Listed({})
      ensures again <==> StepOutcome(input, table, old(All()[q]), c, name).On?
      ensures Became(old(All()), old(head), old(ok), All(), head, ok, q,
        StepOutcome(input, table, old(All()[q]), c, name), prune)
    {
      hide Chained, Counted, ViewOf, TableOk, Join, Config, StateOk, FrontOutcome, ActionFor;
      underflow := false;
      ghost var p, b, l, st, s := path.View(), buf.View(), limit.View(), All(), All()[q];
      JoinAt(p, b, l, pkgc, pkglen, q);
      var none := buf.IsEmpty(q);
      if none {
        FreeState(q);
        return false, underflow;
      }
      var e := buf.Pop(q);
      JoinBuf(p, b, l, pkgc, pkglen, q, buf.View()[q]);
      ghost var r := s.(buf := s.buf[1..]);
      ChangeState(st, head, ok, q, r);
      assert [e] + s.buf[1..] == s.buf;
      assert r.(buf := [e] + r.buf) == s;
      again, underflow := WorkOn(q, e, name, prune, h);
      hide Became;
      BecameFrom(st, old(head), old(ok), All(), head, ok, q, r, StepOutcome(input, table, s, c, name), prune);
    }

    /** `parsemain` from the label `loop2` on, for the state `q`.  `name` is whether the name it
        has captured is one of a system state, `prune` whether an equal state has read the byte. */
    method Work(q: int, name: bool, prune: bool) returns (again: bool, underflow: bool)
      requires Valid({q}) && q in All() && 0 <= c < |input|
      modifies this`head, this`ok, this`pkgc, this`pkglen, this`trace, path, buf, limit
      ensures !underflow && if again then Valid({q}) && q in All() else Valid({})
      ensures again <==> StepOutcome(input, table, old(All()[q]), c, name).On?
      ensures Became(old(All()), old(head), old(ok), All(), head, ok, q,
        StepOutcome(input, table, old(All()[q]), c, name), prune)
    {
      hide Chained, Counted, ViewOf, TableOk, Bytes, Join, StateOk, StepOutcome, Config, Traced, Became, Extended;
      ghost var st := All();
      ghost var h := Now(input, table, start, All(), trace, head, ok, q, c);
      again, underflow := WorkFront(q, name, prune, h);
      ghost var o := StepOutcome(input, table, st[q], c, name);
      StepTraced(input, table, start, st, old(head), old(ok), All(), head, ok, trace, q, c, name, prune);
      trace := Extended(trace, st, All(), q, if o.Read? then c + 1 else c);
      if again {
        InState(All(), head, ok, {q}, q);
      }
    }

    /** The loop of `parsemain`, for `n` turns at most: it ends with an accepted state at the
        end of the input (`r > 0`), without states (`r == -1`), or for want of turns (`r == 0`).
        `choice` gives, for each turn, the two inputs of `Work`. */
    method Parse(choice: nat -> (bool, bool), n: nat) returns (r: int, underflow: bool, ghost p: seq<Conf>)
      requires Valid({}) && c == 0 && head != []
      modifies this, path, buf, limit
      ensures !underflow && r >= -1 && Stacked()
      ensures r > 0 ==> Listed({r}) && r in All() && All() == map[r := All()[r]]
      ensures r > 0 ==> Ends(input, table, start, p, Conf(All()[r], |input|)) && WellNested(input, p)
      ensures r > 0 ==>
        && (AllFinished(input, p) ==> AllFit(input, p))
        && (TightTable(table) ==> (AllFinished(input, p) <==> AllFit(input, p)))
      ensures r > 0 ==> (AllClosed(p) <==> Sum(All()[r].buf) == 0) && (AllClosed(p) <==> All()[r].limit == [])
      ensures r == -1 ==> All() == map[]
      ensures r > 0 ==> Derivable(input, table, start)
      ensures r == -1 && old(Begins()) && NeverPruned(choice, n) && NameFree(table) ==> !Derivable(input, table, start)
    {
      hide Chained, Counted, ViewOf, TableOk, Bytes, Join, IsPath, Config, Traced, WellNested, AllClosed,
           AllFinished, AllFit, TightTable, Derivable, NameFree, Complete, Became, StepOutcome;
      r, underflow, p := 0, false, [];
      var q, i := 0, 0;
      ghost var full := Begins() && NeverPruned(choice, n) && NameFree(table);
      StartComplete(full, input, table, start, All(), ok);
      while i < n
        invariant 0 <= i <= n && !underflow && 0 <= c <= |input| && q >= 0 && (c == |input| ==> q == 0 && head != [])
        invariant if q > 0 then Valid({q}) && q in All() else Valid({})
        invariant Complete(full, input, table, start, All(), ok, c)
      {
        if q == 0 {
          ghost var head0, ok0 := head, ok;
          q := GetBuf({});
          if q == -1 {
            NoneLeft(All());
            EndComplete(full, input, table, start, ok0, c - 1);
            return -1, underflow, [];
          }
          assert {} + {q} == {q};
          NextTraced(input, table, start, All(), trace, head0, ok0, head, ok, q, c);
          NextComplete(full, input, table, start, All(), head0, ok0, ok, c);
          if c == |input| {
            Reached(input, table, start, All(), trace, head, ok, q, c);
            p := PathOf(trace, q);
            PathMeans(input, table, start, p);
            FreeRest(q);
            return q, underflow, p;
          }
        }
        var again;
        ghost var st, head1, ok1 := All(), head, ok;
        again, underflow := Work(q, choice(i).0, choice(i).1);
        TurnComplete(full, input, table, start, st, head1, ok1, All(), head, ok, q, c, choice(i).0, choice(i).1);
        if !again {
          q := 0;
        }
        i := i + 1;
      }
    }

    /** The end of `parsemain`: all states but the result are freed. */
    method FreeRest(r: int)
      requires Listed({r})
      modifies this`head, this`ok, this`c, path, buf, limit
      ensures Listed({r}) && r in old(All()) && All() == map[r := old(All())[r]]
    {
      hide Chained, Counted, ViewOf, TableOk, Join, Config;
      ghost var st := All();
      InState(st, head, ok, {r}, r);
      var q := GetBuf({r});
      while q != -1
        invariant if q == -1 then Listed({r}) && head == [] && ok == [] else Listed({r} + {q}) && q != r
        invariant Stacked() && r in All() && All()[r] == st[r]
        decreases |head| + |ok| + if q == -1 then 0 else 1
      {
        FreeAmong(q, {r});
        q := GetBuf({r});
      }
      OnlyOne(All(), r);
    }

    /** After the last state is freed, none of the shared cells is left. */
    method FreeLast(r: int)
      requires Listed({r}) && All().Keys == {r}
      modifies path, buf, limit
      ensures path.cell == map[] && buf.cell == map[] && limit.cell == map[]
    {
      hide TableOk, Join, Config, ViewOf, Chained, Counted;
      InState(All(), head, ok, {r}, r);
      FreeState(r);
      assert All().Keys == {};
      JoinNone(path.View(), buf.View(), limit.View(), pkgc, pkglen);
      path.Keys();
      buf.Keys();
      limit.Keys();
      assert path.head == map[] && buf.head == map[] && limit.head == map[];
      AllGone(path.cell, path.rank);
      AllGone(buf.cell, buf.rank);
      AllGone(limit.cell, limit.rank);
    }
  }

  // ---------------------------------------------------------------- lists and stacks

  lemma DropState(p: map<int, seq<Elem>>, b: map<int, seq<Elem>>, l: map<int, seq<int>>,
                  pkgc: map<int, int>, pkglen: map<int, int>, head: seq<int>, ok: seq<int>, keep: set<int>, q: int)
    requires Config(Join(p, b, l, pkgc, pkglen), head, ok, keep + {q}) && q !in keep
    ensures q in p && q in b && q in l
    ensures Join(p - {q}, b - {q}, l - {q}, pkgc, pkglen) == Join(p, b, l, pkgc, pkglen) - {q}
    ensures Config(Join(p, b, l, pkgc, pkglen) - {q}, head, ok, keep)
  {
    assert q in Join(p, b, l, pkgc, pkglen);
  }

  lemma StartConfig(start: nat)
    ensures var st := Join(map[1 := []], map[1 := [Term(start)]], map[1 := []], map[], map[]);
            st == map[1 := StartState(start)] && Config(st, [1], [], {})
  {
    assert Join(map[1 := []], map[1 := [Term(start)]], map[1 := []], map[], map[]) == map[1 := StartState(start)];
  }

  lemma NextByte(st: map<int, State>, ok: seq<int>, keep: set<int>)
    requires Config(st, [], ok, keep)
    ensures Config(st, ok, [], keep)
  {
  }

  lemma TakeState(st: map<int, State>, head: seq<int>, ok: seq<int>, keep: set<int>)
    requires Config(st, head, ok, keep) && head != []
    ensures Config(st, head[1..], ok, keep + {head[0]}) && head[0] in st && head[0] > 0 && head[0] !in keep
  {
    var x := head[0];
    assert x in head && x in st;
    forall q | q in head ensures q == x || q in head[1..] {}
    forall q | q in head[1..] ensures q in head && q != x {}
  }

  /** Moving on to the next byte, or not, leaves every path where it is. */
  lemma NextTraced(input: seq<int>, table: Table, start: nat, st: map<int, State>, trace: map<int, seq<Conf>>,
                   head0: seq<int>, ok0: seq<int>, head: seq<int>, ok: seq<int>, q: int, c: int)
    requires Config(st, head0, ok0, {}) && Traced(input, table, start, st, trace, ok0, if head0 == [] then c - 1 else c)
    requires [q] + head == (if head0 == [] then ok0 else head0) && ok == if head0 == [] then [] else ok0
    ensures Traced(input, table, start, st, trace, ok, c)
  {
    hide Ends;
    forall x | x in st ensures x in trace
      && Ends(input, table, start, trace[x], Conf(st[x], if x in ok then c + 1 else c)) {
      assert x in head0 || x in ok0;
    }
  }

  lemma Reached(input: seq<int>, table: Table, start: nat, st: map<int, State>, trace: map<int, seq<Conf>>,
                head: seq<int>, ok: seq<int>, q: int, c: int)
    requires Config(st, head, ok, {q}) && Traced(input, table, start, st, trace, ok, c)
    ensures q in st && Ends(input, table, start, PathOf(trace, q), Conf(st[q], c))
  {
    hide IsPath;
    assert q in st && q !in ok;
  }

  /** The state that is being worked on is in order. */
  lemma Now(input: seq<int>, table: Table, start: nat, st: map<int, State>, trace: map<int, seq<Conf>>,
            head: seq<int>, ok: seq<int>, q: int, c: int) returns (h: Hist)
    requires TableOk(table) && Bytes(input) && Config(st, head, ok, {q})
      && Traced(input, table, start, st, trace, ok, c)
    ensures q in st && StateOk(input, st[q], h, c)
  {
    hide TableOk, Bytes, StateOk, HistAt, IsPath;
    Reached(input, table, start, st, trace, head, ok, q, c);
    var p := PathOf(trace, q);
    PathStart(input, table, start, p);
    PathOk(input, table, start, p, |p| - 1);
    h := HistAt(input, p, |p| - 1);
  }

  lemma JoinAt(p: map<int, seq<Elem>>, b: map<int, seq<Elem>>, l: map<int, seq<int>>,
               pkgc: map<int, int>, pkglen: map<int, int>, q: int)
    requires q in Join(p, b, l, pkgc, pkglen)
    ensures q in p && q in b && q in l
      && Join(p, b, l, pkgc, pkglen)[q] == State(p[q], b[q], l[q], Get(pkgc, q), Get(pkglen, q))
  {
  }

  lemma AddState(p: map<int, seq<Elem>>, b: map<int, seq<Elem>>, l: map<int, seq<int>>,
                 pkgc: map<int, int>, pkglen: map<int, int>, head: seq<int>, ok: seq<int>, q: int, r: int, s: State)
    requires Config(Join(p, b, l, pkgc, pkglen), head, ok, {q}) && r > 0 && r !in p && r !in pkgc && r !in pkglen
    requires s.pkgc == 0 && s.pkglen == 0
    ensures Join(p[r := s.path], b[r := s.buf], l[r := s.limit], pkgc, pkglen) == Join(p, b, l, pkgc, pkglen)[r := s]
    ensures r !in Join(p, b, l, pkgc, pkglen) && r != q
    ensures Config(Join(p, b, l, pkgc, pkglen)[r := s], [r] + head, ok, {q})
  {
    var st := Join(p, b, l, pkgc, pkglen);
    assert q in st && r !in st;
    forall x | x in head ensures x in st {}
  }

  lemma KeepState(st: map<int, State>, head: seq<int>, ok: seq<int>, q: int)
    requires Config(st, head, ok, {q})
    ensures Config(st, head, [q] + ok, {})
  {
  }

  lemma ChangeState(st: map<int, State>, head: seq<int>, ok: seq<int>, q: int, s: State)
    requires Config(st, head, ok, {q})
    ensures Config(st[q := s], head, ok, {q})
  {
    assert q in st && q !in head && q !in ok;
  }

  lemma JoinFields(p: map<int, seq<Elem>>, b: map<int, seq<Elem>>, l: map<int, seq<int>>,
                   pkgc: map<int, int>, pkglen: map<int, int>, pkgc': map<int, int>, pkglen': map<int, int>, q: int)
    requires q in Join(p, b, l, pkgc, pkglen)
    requires forall x :: x != q ==> Get(pkgc', x) == Get(pkgc, x) && Get(pkglen', x) == Get(pkglen, x)
    ensures Join(p, b, l, pkgc', pkglen')
         == Join(p, b, l, pkgc, pkglen)[q := State(p[q], b[q], l[q], Get(pkgc', q), Get(pkglen', q))]
  {
  }

  lemma JoinLimit(p: map<int, seq<Elem>>, b: map<int, seq<Elem>>, l: map<int, seq<int>>,
                  pkgc: map<int, int>, pkglen: map<int, int>, q: int, x: seq<int>)
    requires q in Join(p, b, l, pkgc, pkglen)
    ensures Join(p, b, l[q := x], pkgc, pkglen)
         == Join(p, b, l, pkgc, pkglen)[q := Join(p, b, l, pkgc, pkglen)[q].(limit := x)]
  {
  }

  lemma JoinPath(p: map<int, seq<Elem>>, b: map<int, seq<Elem>>, l: map<int, seq<int>>,
                 pkgc: map<int, int>, pkglen: map<int, int>, q: int, x: seq<Elem>)
    requires q in Join(p, b, l, pkgc, pkglen)
    ensures Join(p[q := x], b, l, pkgc, pkglen)
         == Join(p, b, l, pkgc, pkglen)[q := Join(p, b, l, pkgc, pkglen)[q].(path := x)]
  {
  }

  lemma JoinBuf(p: map<int, seq<Elem>>, b: map<int, seq<Elem>>, l: map<int, seq<int>>,
                pkgc: map<int, int>, pkglen: map<int, int>, q: int, x: seq<Elem>)
    requires q in Join(p, b, l, pkgc, pkglen)
    ensures Join(p, b[q := x], l, pkgc, pkglen)
         == Join(p, b, l, pkgc, pkglen)[q := Join(p, b, l, pkgc, pkglen)[q].(buf := x)]
  {
  }

  lemma InState(st: map<int, State>, head: seq<int>, ok: seq<int>, cur: set<int>, r: int)
    requires Config(st, head, ok, cur) && r in cur
    ensures r in st
  {
  }

  lemma OnlyOne(st: map<int, State>, r: int)
    requires Config(st, [], [], {r})
    ensures r in st && st == map[r := st[r]]
  {
    forall q ensures q in st <==> q == r {}
  }

  lemma NoneLeft(st: map<int, State>)
    requires Config(st, [], [], {})
    ensures st == map[]
  {
    forall q ensures q !in st {}
  }

  lemma JoinNone(p: map<int, seq<Elem>>, b: map<int, seq<Elem>>, l: map<int, seq<int>>, pkgc: map<int, int>,
                 pkglen: map<int, int>)
    requires p.Keys == b.Keys == l.Keys && Join(p, b, l, pkgc, pkglen).Keys == {}
    ensures p.Keys == {}
  {
    forall q | q in p ensures q in Join(p, b, l, pkgc, pkglen) {}
  }
}
