/** Production tables: what they look like in AML, and one that shows where the parser accepts
    too much. */
module AmlTables {
  import opened AmlModel
  import opened AmlRuns
  import opened AmlSpans
  import opened AmlParser
  import opened SharedStacks

  ghost predicate Terms(b: seq<Elem>) {
    forall i :: 0 <= i < |b| ==> b[i].Term?
  }

  lemma {:induction false} TermsSafe(n: int, b: seq<Elem>)
    requires Terms(b) && n >= 0
    ensures Safe(n, b) && Sum(b) == 0
    decreases |b|
  {
    if b != [] {
      TermsSafe(n, b[1..]);
    }
  }

  /** A package among plain terms that is closed, or ignored, in the same production. */
  ghost predicate IsPackage(alt: seq<Elem>, pre: seq<Elem>, body: seq<Elem>, close: Elem, post: seq<Elem>) {
    && Terms(pre) && Terms(body) && Terms(post) && (close == PkgEnd || close == PkgIgnore)
    && alt == pre + [PkgLength] + body + [close] + post
  }

  lemma PackageBalanced(alt: seq<Elem>, pre: seq<Elem>, body: seq<Elem>, close: Elem, post: seq<Elem>)
    requires IsPackage(alt, pre, body, close, post)
    ensures Balanced(alt)
  {
    TermsSafe(0, pre);
    TermsSafe(1, body);
    TermsSafe(0, post);
    assert [PkgLength][1..] == [] && [close][1..] == [];
    SumAppend(pre, [PkgLength]);
    SumAppend(pre + [PkgLength], body);
    SumAppend(pre + [PkgLength] + body, [close]);
    SumAppend(pre + [PkgLength] + body + [close], post);
    SafeAppend(0, pre, [PkgLength]);
    SafeAppend(0, pre + [PkgLength], body);
    SafeAppend(0, pre + [PkgLength] + body, [close]);
    SafeAppend(0, pre + [PkgLength] + body + [close], post);
  }

  /** The two shapes of the alternatives of AML. */
  ghost predicate Shaped(alt: seq<Elem>) {
    Terms(alt) || exists pre, body, close, post :: IsPackage(alt, pre, body, close, post)
  }

  ghost predicate AllShaped(a: Action) {
    a.Expand? ==> forall i :: 0 <= i < |a.alts| ==> Shaped(a.alts[i])
  }

  /** A table made of these shapes meets what the parser relies on. */
  lemma ShapedTableOk(table: Table)
    requires forall id, path, byte, name :: AllShaped(table(id, path, byte, name))
    ensures TableOk(table)
  {
    forall id, path, byte, name, i | table(id, path, byte, name).Expand? && 0 <= i < |table(id, path, byte, name).alts|
      ensures Balanced(table(id, path, byte, name).alts[i])
    {
      assert AllShaped(table(id, path, byte, name));
      ShapedBalanced(table(id, path, byte, name).alts[i]);
    }
  }

  lemma ShapedBalanced(alt: seq<Elem>)
    requires Shaped(alt)
    ensures Balanced(alt)
  {
    if Terms(alt) {
      TermsSafe(0, alt);
    } else {
      var pre, body, close, post :| IsPackage(alt, pre, body, close, post);
      PackageBalanced(alt, pre, body, close, post);
    }
  }

  // ---------------------------------------------------------------- tables that ignore at once

  lemma {:induction false} PlainTight(a: Elem, b: Elem, u: seq<Elem>)
    requires forall i :: 0 <= i < |u| ==> u[i] != PkgIgnore
    ensures Tight(a, b, u)
    decreases |u|
  {
    if u != [] {
      PlainTight(b, u[0], u[1..]);
    }
  }

  lemma {:induction false} IgnoreTight(a: Elem, b: Elem, pre: seq<Elem>, post: seq<Elem>)
    requires Terms(pre) && Terms(post)
    ensures Tight(a, b, pre + [PkgLength] + [] + [PkgIgnore] + post)
    decreases |pre|
  {
    var u := pre + [PkgLength] + [] + [PkgIgnore] + post;
    if pre == [] {
      PlainTight(PkgLength, PkgIgnore, post);
      assert u[1..][1..] == post;
    } else {
      IgnoreTight(b, pre[0], pre[1..], post);
      assert u[1..] == pre[1..] + [PkgLength] + [] + [PkgIgnore] + post;
    }
  }

  /** As in AML, where a length that is ignored is not one of a package. */
  ghost predicate AmlShaped(alt: seq<Elem>) {
    || Terms(alt)
    || exists pre, body, close, post :: IsPackage(alt, pre, body, close, post) && (close == PkgIgnore ==> body == [])
  }

  lemma ShapedTight(alt: seq<Elem>, a: Elem, b: Elem)
    requires AmlShaped(alt)
    ensures Tight(a, b, alt) && Balanced(alt)
  {
    hide Tight, Balanced;
    if Terms(alt) {
      PlainTight(a, b, alt);
      ShapedBalanced(alt);
    } else {
      var pre, body, close, post :| IsPackage(alt, pre, body, close, post) && (close == PkgIgnore ==> body == []);
      PackageBalanced(alt, pre, body, close, post);
      if close == PkgIgnore {
        IgnoreTight(a, b, pre, post);
      } else {
        PlainTight(a, b, alt);
      }
    }
  }

  /** A table of the shapes of AML meets all that the results about packages rely on. */
  lemma AmlTableTight(table: Table)
    requires forall id, path, byte, name :: AllAmlShaped(table(id, path, byte, name))
    ensures TightTable(table) && TableOk(table)
  {
    forall id, path, byte, name
      ensures TightAction(table(id, path, byte, name)) && AllShaped(table(id, path, byte, name))
    {
      var act := table(id, path, byte, name);
      assert AllAmlShaped(act);
      if act.Expand? {
        forall i, a, t | 0 <= i < |act.alts| ensures Tight(a, Term(t), act.alts[i]) {
          ShapedTight(act.alts[i], a, Term(t));
        }
      }
    }
    ShapedTableOk(table);
  }

  ghost predicate AllAmlShaped(a: Action) {
    a.Expand? ==> forall i :: 0 <= i < |a.alts| ==> AmlShaped(a.alts[i])
  }

  // ---------------------------------------------------------------- packages that do not end where they say

  /** A package of any bytes. */
  function OnePackage(id: nat, path: seq<Elem>, byte: int, name: bool): Action {
    if id == 0 then Expand([[PkgLength, Term(1), PkgEnd]]) else Shift
  }

  lemma OnePackageOk()
    ensures TableOk(OnePackage) && TightTable(OnePackage)
  {
    var alt := [PkgLength, Term(1), PkgEnd];
    assert [] + [PkgLength] + [Term(1)] + [PkgEnd] + [] == alt;
    assert IsPackage(alt, [], [Term(1)], PkgEnd, []);
    AmlTableTight(OnePackage);
  }

  /** A package of two bytes that says it has `b`. */
  function Lying(b: int): seq<int> {
    [b, 7]
  }

  /** The states that the parser goes through. */
  function Stage(b: int, i: nat): Conf {
    match i
    case 0 => Conf(StartState(0), 0)
    case 1 => Conf(State([Term(0)], [PkgLength, Term(1), PkgEnd, OK], [], 0, 0), 0)
    case 2 => Conf(State([PkgLength, Term(0)], [Len0, PkgPush, OK, Term(1), PkgEnd, OK], [], 0, 0), 0)
    case 3 => Conf(State([PkgLength, Term(0)], [PkgPush, OK, Term(1), PkgEnd, OK], [], 0, b), 1)
    case 4 => Conf(State([PkgLength, Term(0)], [OK, Term(1), PkgEnd, OK], [b], 0, b), 1)
    case 5 => Conf(State([Term(0)], [Term(1), PkgEnd, OK], [b], 0, b), 1)
    case _ => Conf(State([Term(0)], [PkgEnd, OK], [b], 0, b), 2)
  }

  function StageOutcome(b: int, i: nat): Outcome {
    match i
    case 0 => Forked([Stage(b, 1).s])
    case 1 => Forked([Stage(b, 2).s])
    case 2 => Read(Stage(b, 3).s)
    case 3 => On(Stage(b, 4).s)
    case 4 => On(Stage(b, 5).s)
    case _ => Read(Stage(b, 6).s)
  }

  lemma StageStep(b: int, i: nat, name: bool)
    requires i < 6 && 0 <= b < 64 && b != 1
    ensures StepOutcome(Lying(b), OnePackage, Stage(b, i).s, Stage(b, i).c, name) == StageOutcome(b, i)
  {
    var s := Stage(b, i).s;
    match i
    case 0 =>
      assert s.buf[1..] == [];
      assert Derived(s.(buf := []), Term(0), [PkgLength, Term(1), PkgEnd]) == Stage(b, 1).s;
    case 1 =>
      assert s.buf[1..] == [Term(1), PkgEnd, OK];
      assert Group(0) == [Len0, PkgPush];
      assert Derived(s.(buf := [Term(1), PkgEnd, OK]), PkgLength, [Len0, PkgPush]) == Stage(b, 2).s;
    case 2 => assert s.buf[1..] == Stage(b, 3).s.buf;
    case 3 => assert s.buf[1..] == Stage(b, 4).s.buf && [b] + [] == [b];
    case 4 => assert s.buf[1..] == Stage(b, 5).s.buf && s.path[1..] == Stage(b, 5).s.path;
    case _ => assert s.buf[1..] == Stage(b, 6).s.buf;
  }

  /** The one state `q` of a parser is at stage `i`, and is being worked on. */
  ghost predicate AtStage(p: Parser, q: int, b: int, i: nat)
    reads p, p.path, p.buf, p.limit
  {
    && p.input == Lying(b) && p.table == OnePackage && p.start == 0 && p.head == [] && p.ok == []
    && p.Valid({q}) && p.All() == map[q := Stage(b, i).s] && p.c == Stage(b, i).c
  }

  method Advance(p: Parser, q: int, b: int, i: nat) returns (r: int)
    requires AtStage(p, q, b, i) && i < 6 && 0 <= b < 64 && b != 1
    modifies p, p.path, p.buf, p.limit
    ensures AtStage(p, r, b, i + 1)
  {
    hide Config, Traced, Chained, Counted, ViewOf, TableOk, Bytes, Join, StepOutcome;
    StageStep(b, i, false);
    var again, underflow := p.Work(q, false, false);
    r := q;
    if !again {
      ghost var head0, ok0 := p.head, p.ok;
      ForkedOne(map[q := Stage(b, i).s], p.All(), p.head, p.ok, q, StageOutcome(b, i));
      r := p.GetBuf({});
      assert {} + {r} == {r};
      NextTraced(p.input, p.table, p.start, p.All(), p.trace, head0, ok0, p.head, p.ok, r, p.c);
    }
  }

  lemma ForkedOne(st: map<int, State>, st': map<int, State>, head': seq<int>, ok': seq<int>, q: int, o: Outcome)
    requires q in st && st == map[q := st[q]] && Became(st, [], [], st', head', ok', q, o, false)
    ensures o.Forked? && |o.ss| == 1 ==> |head'| == 1 && st' == map[head'[0] := o.ss[0]]
    ensures o.Read? ==> st' == map[q := o.s]
  {
    assert st - {q} == map[];
    if o.Forked? && |o.ss| == 1 {
      var x := head'[0];
      assert head'[..1] == [x] && x in st';
      forall y | y in st' ensures y == x {}
    }
  }

  /** The parser accepts all the same: at the end of the input the limit is still on the stack. */
  method Accept(b: int) returns (p: Parser, r: int, ghost t: seq<Conf>)
    requires 0 <= b < 64 && b != 1 && b != 2
    ensures p.input == Lying(b) && p.table == OnePackage && TableOk(OnePackage) && TightTable(OnePackage)
    ensures p.Listed({r}) && r in p.All() && p.All()[r].limit == [b]
    ensures Ends(Lying(b), OnePackage, 0, t, Conf(p.All()[r], |Lying(b)|))
    ensures !AllFinished(Lying(b), t) && !AllFit(Lying(b), t)
  {
    hide Config, Traced, Chained, Counted, ViewOf, TableOk, Join, TightTable, IsPath, AllFinished, AllFit, StepOutcome;
    OnePackageOk();
    p := new Parser(Lying(b), OnePackage, 0);
    ghost var head0, ok0 := p.head, p.ok;
    r := p.GetBuf({});
    assert {} + {r} == {r};
    NextTraced(p.input, p.table, p.start, p.All(), p.trace, head0, ok0, p.head, p.ok, r, p.c);
    var i := 0;
    while i < 6
      invariant 0 <= i <= 6 && AtStage(p, r, b, i) && fresh(p) && fresh(p.path) && fresh(p.buf) && fresh(p.limit)
    {
      r := Advance(p, r, b, i);
      i := i + 1;
    }
    Reached(p.input, p.table, p.start, p.All(), p.trace, p.head, p.ok, r, p.c);
    t := PathOf(p.trace, r);
    LeftOver(p.input, p.table, p.start, t);
    ParseSpans(p.input, p.table, p.start, t);
    p.FreeRest(r);
  }

  /** A package that says it ends behind the input. */
  method Truncated() returns (p: Parser, r: int, ghost t: seq<Conf>)
    ensures p.input == [3, 7] && p.table == OnePackage && p.Listed({r}) && r in p.All() && p.All()[r].limit == [3]
    ensures Ends([3, 7], OnePackage, 0, t, Conf(p.All()[r], 2)) && !AllFinished([3, 7], t)
  {
    p, r, t := Accept(3);
  }

  /** A package that says it ends before its first byte: the byte behind its length is read
      although it lies beyond that end. */
  method Overrun() returns (p: Parser, r: int, ghost t: seq<Conf>)
    ensures p.input == [0, 7] && p.table == OnePackage && p.Listed({r}) && r in p.All() && p.All()[r].limit == [0]
    ensures Ends([0, 7], OnePackage, 0, t, Conf(p.All()[r], 2)) && !AllFinished([0, 7], t)
  {
    p, r, t := Accept(0);
  }
}
