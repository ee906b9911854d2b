/** The timer queue: armed timers are kept in the order of their deadlines, so that looking at
    the first one is enough. */
module Timers {
  import opened List

  datatype Timer = Timer(enable: bool, settime: int, interval: int)

  function Deadline(t: Timer): int {
    t.settime + t.interval
  }

  ghost predicate InOrder(td: map<int, Timer>, on: seq<int>) {
    && (forall i :: 0 <= i < |on| ==> on[i] in td)
    && (forall i, j :: 0 <= i < j < |on| ==> Deadline(td[on[i]]) <= Deadline(td[on[j]]))
  }

  /** Each timer is on exactly one list, the one its flag says. */
  ghost predicate Filed(td: map<int, Timer>, on: seq<int>, off: seq<int>, free: seq<int>) {
    && Distinct(on) && Distinct(off) && Distinct(free)
    && (forall p :: p in td <==> p in on || p in off || p in free)
    && (forall p :: p in on ==> p !in off && p !in free && td[p].enable)
    && (forall p :: p in off ==> p !in free && !td[p].enable)
    && (forall p :: p in free ==> !td[p].enable)
  }

  ghost predicate Past(td: map<int, Timer>, on: seq<int>, now: int) {
    forall p :: p in on && p in td ==> td[p].settime <= now && 0 <= td[p].interval
  }

  lemma FrontLeast(td: map<int, Timer>, on: seq<int>, x: int)
    requires InOrder(td, on) && x in on
    ensures x in td && on[0] in td && Deadline(td[on[0]]) <= Deadline(td[x])
  {
    var i :| 0 <= i < |on| && on[i] == x;
    assert i > 0 ==> Deadline(td[on[0]]) <= Deadline(td[on[i]]);
  }

  lemma {:induction false} DelInOrder(td: map<int, Timer>, on: seq<int>, p: int)
    requires InOrder(td, on) && p in on && Distinct(on)
    ensures InOrder(td, Del(on, p))
    decreases |on|
  {
    if on[0] != p {
      DelInOrder(td, on[1..], p);
      DelIs(on[1..], p);
      var d := Del(on[1..], p);
      forall i | 0 <= i < |d| ensures d[i] in td && Deadline(td[on[0]]) <= Deadline(td[d[i]]) {
        var x := d[i];
        assert x in d;
        FrontLeast(td, on, x);
      }
      ConsInOrder(td, on[0], d);
    }
  }

  lemma ConsInOrder(td: map<int, Timer>, x: int, l: seq<int>)
    requires InOrder(td, l) && x in td && forall i :: 0 <= i < |l| ==> Deadline(td[x]) <= Deadline(td[l[i]])
    ensures InOrder(td, [x] + l)
  {
  }

  /** `LIST1_INSERT` before the element at `k`, or at the end. */
  function Insert(l: seq<int>, k: nat, p: int): seq<int>
    requires k <= |l|
  {
    l[..k] + [p] + l[k..]
  }

  lemma InsertInOrder(td: map<int, Timer>, on: seq<int>, k: nat, p: int)
    requires InOrder(td, on) && k <= |on| && p in td
    requires forall i :: 0 <= i < k ==> Deadline(td[on[i]]) <= Deadline(td[p])
    requires k < |on| ==> Deadline(td[p]) <= Deadline(td[on[k]])
    ensures InOrder(td, Insert(on, k, p))
  {
    var l := Insert(on, k, p);
    forall i | 0 <= i < |l| ensures l[i] == if i < k then on[i] else if i == k then p else on[i - 1] {}
    forall i, j | 0 <= i < j < |l| ensures Deadline(td[l[i]]) <= Deadline(td[l[j]]) {
      if i == k {
        assert Deadline(td[on[k]]) <= Deadline(td[on[j - 1]]);
      }
    }
  }

  lemma InsertIs(l: seq<int>, k: nat, p: int)
    requires k <= |l| && Distinct(l) && p !in l
    ensures Distinct(Insert(l, k, p)) && forall x :: x in Insert(l, k, p) <==> x in l || x == p
  {
    var m := Insert(l, k, p);
    forall i | 0 <= i < |m| ensures m[i] == if i < k then l[i] else if i == k then p else l[i - 1] {}
    forall x | x in l ensures x in m {
      var i :| 0 <= i < |l| && l[i] == x;
      assert m[if i < k then i else i + 1] == x;
    }
    assert m[k] == p;
  }

  lemma AddIs(l: seq<int>, p: int)
    requires Distinct(l) && p !in l
    ensures Distinct(l + [p]) && forall x :: x in l + [p] <==> x in l || x == p
  {
  }

  // ---------------------------------------------------------------- off one list, onto another

  /** All timers but `p` are filed. */
  ghost predicate Loose(td: map<int, Timer>, on: seq<int>, off: seq<int>, free: seq<int>, p: int) {
    p in td && Filed(td - {p}, on, off, free)
  }

  lemma TakeOn(td: map<int, Timer>, on: seq<int>, off: seq<int>, free: seq<int>, p: int)
    requires Filed(td, on, off, free) && p in td && p !in free && td[p].enable
    ensures p in on && Distinct(on) && Loose(td, Del(on, p), off, free, p)
      && forall q :: q in Del(on, p) <==> q in on && q != p
  {
    DelIs(on, p);
  }

  lemma TakeOff(td: map<int, Timer>, on: seq<int>, off: seq<int>, free: seq<int>, p: int)
    requires Filed(td, on, off, free) && p in td && p !in free && !td[p].enable
    ensures p in off && p !in on && Loose(td, on, Del(off, p), free, p)
      && forall q :: q in Del(off, p) <==> q in off && q != p
  {
    DelIs(off, p);
  }

  lemma TakeFree(td: map<int, Timer>, on: seq<int>, off: seq<int>, free: seq<int>)
    requires Filed(td, on, off, free) && free != []
    ensures free[0] in td && Loose(td, on, off, free[1..], free[0]) && free[0] !in on
  {
    var p := free[0];
    assert p in free;
    forall q | q in free && q != p ensures q in free[1..] {}
    forall q | q in free[1..] ensures q in free && q != p {}
  }

  lemma PutOn(td: map<int, Timer>, on: seq<int>, on': seq<int>, off: seq<int>, free: seq<int>, p: int)
    requires Loose(td, on, off, free, p) && td[p].enable && Distinct(on') && forall q :: q in on' <==> q in on || q == p
    ensures Filed(td, on', off, free)
  {
  }

  lemma PutOff(td: map<int, Timer>, on: seq<int>, off: seq<int>, free: seq<int>, p: int)
    requires Loose(td, on, off, free, p) && !td[p].enable
    ensures Filed(td, on, off + [p], free)
  {
    assert p !in off;
    AddIs(off, p);
  }

  lemma PutFree(td: map<int, Timer>, on: seq<int>, off: seq<int>, free: seq<int>, p: int)
    requires Loose(td, on, off, free, p) && !td[p].enable
    ensures Filed(td, on, off, free + [p])
  {
    assert p !in free;
    AddIs(free, p);
  }

  /** A loose timer can be changed freely. */
  lemma Change(td: map<int, Timer>, on: seq<int>, off: seq<int>, free: seq<int>, p: int, x: Timer, now: int, now': int)
    requires Loose(td, on, off, free, p) && InOrder(td, on) && Past(td, on, now) && now <= now'
    ensures p !in on && Loose(td[p := x], on, off, free, p) && InOrder(td[p := x], on) && Past(td[p := x], on, now')
  {
    assert td[p := x] - {p} == td - {p};
    forall i | 0 <= i < |on| ensures on[i] != p {
      var q := on[i];
      assert q in on && q in td - {p};
    }
  }

  lemma FewerPast(td: map<int, Timer>, on: seq<int>, on': seq<int>, now: int)
    requires Past(td, on, now) && forall q :: q in on' ==> q in on
    ensures Past(td, on', now)
  {
  }

  class Queue {
    var td: map<int, Timer>
    var on: seq<int>
    var off: seq<int>
    var free: seq<int>

    /** Whether `timer_lock` is held, which it is while no call is running only if a call has
        returned without releasing it. */
    var locked: bool

    /** The latest time that anyone has read off the clock. */
    ghost var now: int

    ghost predicate Valid()
      reads this
    {
      Filed(td, on, off, free) && InOrder(td, on) && Past(td, on, now)
    }

    /** `timer_init_global` */
    constructor (n: nat)
      ensures Valid() && on == [] && off == [] && |free| == n && !locked
    {
      td, on, off, free, locked, now := map[], [], [], [], false, 0;
      new;
      var i := 0;
      while i < n
        invariant 0 <= i <= n && Valid() && on == [] && off == [] && |free| == i && !locked
          && forall p :: p in free ==> p < i
      {
        forall j | 0 <= j < |free| ensures free[j] != i {
          var p := free[j];
          assert p in free;
        }
        td := td[i := Timer(false, 0, 0)];
        free := [i] + free;
        i := i + 1;
      }
    }

    /** `timer_new`; -1 stands for the null pointer.  Without a free timer it returns with the
        lock still held, so that no later call gets anywhere. */
    method New() returns (p: int)
      requires Valid() && !locked
      modifies this
      ensures Valid() && on == old(on) && (locked <==> old(free) == [])
      ensures old(free) == [] ==> p == -1 && off == old(off) && free == old(free) && td == old(td)
      ensures old(free) != [] ==>
        && p == old(free)[0] && off == old(off) + [p] && free == old(free)[1..]
        && p in old(td) && td == old(td)[p := old(td)[p].(enable := false)]
    {
      hide Filed, InOrder, Past;
      locked := true;
      if free == [] {
        return -1;
      }
      p := free[0];
      TakeFree(td, on, off, free);
      free := free[1..];
      Change(td, on, off, free, p, td[p].(enable := false), now, now);
      td := td[p := td[p].(enable := false)];
      PutOff(td, on, off, free, p);
      off := off + [p];
      locked := false;
    }

    /** `timer_set`: arms a timer, or arms it anew, to go off `interval` from now. */
    method Set(p: int, interval: int, time: int)
      requires Valid() && !locked && p in td && p !in free && interval >= 0 && now <= time
      modifies this
      ensures Valid() && !locked && p in on && td == old(td)[p := Timer(true, time, interval)] && free == old(free)
        && now == time
      ensures forall q :: q != p ==> (q in on <==> q in old(on))
    {
      hide Filed, InOrder, Del, Insert;
      if !td[p].enable {
        TakeOff(td, on, off, free, p);
        off := Del(off, p);
      } else {
        TakeOn(td, on, off, free, p);
        DelInOrder(td, on, p);
        FewerPast(td, on, Del(on, p), now);
        on := Del(on, p);
      }
      Change(td, on, off, free, p, Timer(true, time, interval), now, time);
      td := td[p := Timer(true, time, interval)];
      now := time;
      var k := FindPlace(p, interval, time);
      LooseOn(td, on, off, free, p);
      InsertInOrder(td, on, k, p);
      InsertIs(on, k, p);
      PutOn(td, on, Insert(on, k, p), off, free, p);
      on := Insert(on, k, p);
    }

    /** The scan of `timer_set`: the place before the first timer that has more time left. */
    method FindPlace(p: int, interval: int, time: int) returns (k: nat)
      requires p in td && p !in on && td[p] == Timer(true, time, interval) && interval >= 0 && now == time
      requires InOrder(td, on) && Past(td, on, now)
      ensures k <= |on| && (forall i :: 0 <= i < |on| ==> on[i] in td)
      ensures forall i :: 0 <= i < k ==> Deadline(td[on[i]]) <= Deadline(td[p])
      ensures k < |on| ==> Deadline(td[p]) < Deadline(td[on[k]])
    {
      k := 0;
      while k < |on|
        invariant 0 <= k <= |on| && forall i :: 0 <= i < k ==> Deadline(td[on[i]]) <= Deadline(td[p])
      {
        var q := on[k];
        assert q in on;
        var d := td[q];
        if d.interval > time - d.settime && d.interval - (time - d.settime) > interval {
          return;
        }
        k := k + 1;
      }
    }

    /** `timer_free` */
    method Free(p: int)
      requires Valid() && !locked && p in td && p !in free
      modifies this
      ensures Valid() && !locked && free == old(free) + [p] && p !in on
        && forall q :: q != p ==> (q in on <==> q in old(on))
      ensures td == old(td)[p := old(td)[p].(enable := false)]
    {
      hide Filed, InOrder, Past, Del;
      if td[p].enable {
        TakeOn(td, on, off, free, p);
        DelInOrder(td, on, p);
        FewerPast(td, on, Del(on, p), now);
        on := Del(on, p);
      } else {
        TakeOff(td, on, off, free, p);
        off := Del(off, p);
      }
      Change(td, on, off, free, p, td[p].(enable := false), now, now);
      td := td[p := td[p].(enable := false)];
      PutFree(td, on, off, free, p);
      free := free + [p];
    }

    /** One round of `timer_thread`: the first armed timer goes off if it is due.  It never does
        so early, and when it does not, nothing is due. */
    method Fire(time: int) returns (p: int, fired: bool)
      requires Valid() && !locked && now <= time
      modifies this
      ensures Valid() && !locked && now == time && free == old(free)
      ensures fired ==>
        && p in old(on) && p in old(td) && Deadline(old(td[p])) <= time
        && td == old(td)[p := old(td[p]).(enable := false)]
      ensures fired ==> p !in on && forall q :: q != p ==> (q in on <==> q in old(on))
      ensures fired ==> forall q :: q in old(on) && q in old(td) ==> Deadline(old(td[p])) <= Deadline(old(td[q]))
      ensures !fired ==> td == old(td) && on == old(on) && forall q :: q in on && q in td ==> time < Deadline(td[q])
    {
      hide Filed, Del;
      p, fired := 0, false;
      now := time;
      if on == [] {
        return;
      }
      p := on[0];
      FirstLeast(td, on);
      OnEnabled(td, on, off, free, p);
      if time - td[p].settime >= td[p].interval {
        fired := true;
        TakeOn(td, on, off, free, p);
        DelInOrder(td, on, p);
        FewerPast(td, on, Del(on, p), now);
        on := Del(on, p);
        Change(td, on, off, free, p, td[p].(enable := false), now, now);
        td := td[p := td[p].(enable := false)];
        PutOff(td, on, off, free, p);
        off := off + [p];
      }
    }
  }

  lemma LooseOn(td: map<int, Timer>, on: seq<int>, off: seq<int>, free: seq<int>, p: int)
    requires Loose(td, on, off, free, p)
    ensures Distinct(on) && p !in on
  {
  }

  /** The first armed timer has the earliest deadline. */
  lemma FirstLeast(td: map<int, Timer>, on: seq<int>)
    requires InOrder(td, on) && on != []
    ensures on[0] in td && forall q :: q in on && q in td ==> Deadline(td[on[0]]) <= Deadline(td[q])
  {
    forall q | q in on && q in td ensures Deadline(td[on[0]]) <= Deadline(td[q]) {
      FrontLeast(td, on, q);
    }
  }

  lemma OnEnabled(td: map<int, Timer>, on: seq<int>, off: seq<int>, free: seq<int>, p: int)
    requires Filed(td, on, off, free) && on != [] && p == on[0]
    ensures p in on && p in td && p !in free && td[p].enable
  {
    assert p in on;
  }
}
