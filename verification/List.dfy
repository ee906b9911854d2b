/** The doubly linked lists of `list.h`, as sequences. */
module List {

  ghost predicate Distinct(l: seq<int>) {
    forall i, j :: 0 <= i < j < |l| ==> l[i] != l[j]
  }

  /** `LIST1_DEL` */
  function Del(l: seq<int>, x: int): seq<int>
    requires x in l
  {
    if l[0] == x then l[1..] else [l[0]] + Del(l[1..], x)
  }

  lemma {:induction false} DelIs(l: seq<int>, x: int)
    requires x in l && Distinct(l)
    ensures Distinct(Del(l, x)) && forall y :: y in Del(l, x) <==> y in l && y != x
  {
    if l[0] == x {
      forall y | y in l && y != x ensures y in l[1..] {}
      forall y | y in l[1..] ensures y != x {}
    } else {
      DelIs(l[1..], x);
      var d := Del(l[1..], x);
      forall i | 0 <= i < |d| ensures d[i] != l[0] {
        assert d[i] in d;
      }
    }
  }

  /** A number above all in use. */
  lemma {:induction false} FreshAbove(used: set<int>) returns (p: int)
    ensures p > 0 && forall x :: x in used ==> x < p
    decreases |used|
  {
    p := 1;
    if x: int :| x in used {
      var q := FreshAbove(used - {x});
      p := if x < q then q else x + 1;
      assert forall y :: y in used ==> y == x || y in used - {x};
    }
  }
}
