/** What the users of messages may count on, over whole runs: a name leads to the function that was
    registered under it, for as long as the process that registered it lives. */
module IpcLaws {
  import opened IpcModel

  /** From `a` to `b` by one event, or by a run of them. */
  ghost predicate Did(a: Sys, e: Event, b: Sys) {
    Inv(a) && Enabled(a, e) && b == Step(a, e)
  }

  ghost predicate Ran(a: Sys, es: seq<Event>, b: Sys) {
    Inv(a) && Possible(a, es) && b == After(a, es)
  }

  /** The incarnation that `d` was made for is alive, and has a function in the slot. */
  ghost predicate Served(s: Sys, d: Desc) {
    Live(s.proc, d) && d.dsc < |s.proc[d.pid].func| && s.proc[d.pid].func[d.dsc]
  }

  /** A program that cannot be loaded takes the function of slot 0 from the kernel. */
  ghost predicate Harmless(e: Event, d: Desc) {
    d.pid == 0 && d.dsc == 0 ==> !(e.NewProcess? && e.mem && !e.loads)
  }

  // ---------------------------------------------------------------- steps

  lemma CleanedGrows(s: Sys, e: Event)
    requires Inv(s) && Enabled(s, e)
    ensures s.cleaned <= Step(s, e).cleaned
  {
    hide Counts, Incs, Tables, Looks, Names, Frames;
    if e.Leave? || e.SetExit? {
      LastFrame(s, e.t);
    }
  }

  /** A function that has been registered stays until its incarnation is cleaned up. */
  lemma ServedStep(s: Sys, e: Event, d: Desc)
    requires Inv(s) && Enabled(s, e) && Served(s, d) && Harmless(e, d)
    ensures Served(Step(s, e), d) || d.inc in Step(s, e).cleaned
  {
    hide Counts, Incs, Names;
    if e.Leave? || e.SetExit? {
      LastFrame(s, e.t);
    } else if e.SendDesc? {
      assert RefOk(s.proc, s.proc[e.who].dsc[e.to]);
    } else if e.Enter? {
      assert RefOk(s.proc, s.task[e.t].look);
    }
  }

  /** The entry is the one that a lookup of its name finds. */
  ghost predicate First(names: seq<Entry>, x: Entry) {
    exists k :: 0 <= k < |names| && names[k] == x && forall j :: 0 <= j < k ==> names[j].name != x.name
  }

  lemma FirstMore(names: seq<Entry>, x: Entry, y: Entry)
    requires First(names, x)
    ensures First(names + [y], x)
  {
    var k :| 0 <= k < |names| && names[k] == x && forall j :: 0 <= j < k ==> names[j].name != x.name;
    assert (names + [y])[k] == x;
  }

  lemma {:induction false} FirstWithout(names: seq<Entry>, x: Entry, pid: int)
    requires First(names, x) && x.to.pid != pid
    ensures First(Without(names, pid), x)
  {
    var k :| 0 <= k < |names| && names[k] == x && forall j :: 0 <= j < k ==> names[j].name != x.name;
    if k == 0 {
      assert Without(names, pid)[0] == x;
    } else {
      assert names[1..][k - 1] == x;
      FirstWithout(names[1..], x, pid);
      var r := Without(names[1..], pid);
      var i :| 0 <= i < |r| && r[i] == x && forall j :: 0 <= j < i ==> r[j].name != x.name;
      assert Without(names, pid)[if names[0].to.pid == pid then i else i + 1] == x;
    }
  }

  lemma NameStep(s: Sys, e: Event, x: Entry)
    requires Inv(s) && Enabled(s, e) && First(s.names, x)
    ensures First(Step(s, e).names, x) || x.to.inc in Step(s, e).cleaned
  {
    hide Counts, Incs, Looks, Tables, Without, First;
    if e.Leave? {
      LastFrame(s, e.t);
      FirstLive(s, x);
      if x.to.pid != Pid(s, e.t) {
        FirstWithout(s.names, x, Pid(s, e.t));
      }
    } else if e.SetExit? {
      LastFrame(s, e.t);
    } else if e.Register? && Step(s, e).names != s.names {
      FirstMore(s.names, x, Step(s, e).names[|s.names|]);
    }
  }

  lemma FirstLive(s: Sys, x: Entry)
    requires Inv(s) && First(s.names, x)
    ensures Live(s.proc, x.to)
  {
  }

  lemma LookStep(s: Sys, e: Event, t: int)
    requires Inv(s) && Enabled(s, e) && t in s.task && e.t != t
    ensures t in Step(s, e).task && Step(s, e).task[t] == s.task[t]
  {
    hide Counts, Incs, Looks, Names, Tables;
    if e.Leave? || e.SetExit? {
      LastFrame(s, e.t);
    }
  }

  /** Slot `k` of incarnation `inc` of process `c` holds `d`. */
  ghost predicate Holds(s: Sys, c: int, inc: int, k: int, d: Desc) {
    && 0 <= c < |s.proc| && s.proc[c].valid && s.proc[c].inc == inc && 0 <= k < |s.proc[c].dsc|
    && s.proc[c].dsc[k] == d
  }

  ghost predicate Closes(e: Event, c: int, k: int) {
    e.CloseDesc? && e.who == c && e.i == k
  }

  /** A reference stays in its slot until the slot is closed or the incarnation cleaned up. */
  lemma HoldsStep(s: Sys, e: Event, c: int, inc: int, k: int, d: Desc)
    requires Inv(s) && Enabled(s, e) && Holds(s, c, inc, k, d) && !Empty(d) && !Closes(e, c, k)
    ensures Holds(Step(s, e), c, inc, k, d) || inc in Step(s, e).cleaned
  {
    hide Counts, Incs, Names;
    if e.Leave? || e.SetExit? {
      LastFrame(s, e.t);
    } else if e.SendDesc? {
      assert RefOk(s.proc, s.proc[e.who].dsc[e.to]);
    } else if e.Enter? {
      assert RefOk(s.proc, s.task[e.t].look);
    }
  }

  // ---------------------------------------------------------------- runs

  lemma {:induction false} CleanedRun(s: Sys, es: seq<Event>)
    requires Inv(s) && Possible(s, es)
    ensures s.cleaned <= After(s, es).cleaned
    decreases |es|
  {
    hide Inv, Enabled, Step;
    if es != [] {
      CleanedGrows(s, es[0]);
      StepInv(s, es[0]);
      CleanedRun(Step(s, es[0]), es[1..]);
    }
  }

  /** The name is registered, and its function can be called. */
  ghost predicate Known(s: Sys, x: Entry) {
    First(s.names, x) && Served(s, x.to)
  }

  lemma {:induction false} KnownRun(s: Sys, es: seq<Event>, x: Entry)
    requires Inv(s) && Possible(s, es) && Known(s, x) && x.to.inc !in After(s, es).cleaned
    requires forall e :: e in es ==> Harmless(e, x.to)
    ensures Known(After(s, es), x) && Inv(After(s, es))
    decreases |es|
  {
    hide Inv, Enabled, Step, Served, First;
    if es != [] {
      ServedStep(s, es[0], x.to);
      NameStep(s, es[0], x);
      StepInv(s, es[0]);
      CleanedRun(Step(s, es[0]), es[1..]);
      KnownRun(Step(s, es[0]), es[1..], x);
    }
  }

  lemma {:induction false} LookRun(s: Sys, es: seq<Event>, t: int)
    requires Inv(s) && Possible(s, es) && t in s.task && forall e :: e in es ==> e.t != t
    ensures t in After(s, es).task && After(s, es).task[t] == s.task[t]
    decreases |es|
  {
    hide Inv, Enabled, Step;
    if es != [] {
      LookStep(s, es[0], t);
      StepInv(s, es[0]);
      LookRun(Step(s, es[0]), es[1..], t);
    }
  }

  lemma {:induction false} HoldsRun(s: Sys, es: seq<Event>, c: int, inc: int, k: int, d: Desc)
    requires Inv(s) && Possible(s, es) && Holds(s, c, inc, k, d) && !Empty(d) && inc !in After(s, es).cleaned
    requires forall e :: e in es ==> !Closes(e, c, k)
    ensures Holds(After(s, es), c, inc, k, d)
    decreases |es|
  {
    hide Inv, Enabled, Step, Holds;
    if es != [] {
      HoldsStep(s, es[0], c, inc, k, d);
      StepInv(s, es[0]);
      CleanedRun(Step(s, es[0]), es[1..]);
      HoldsRun(Step(s, es[0]), es[1..], c, inc, k, d);
    }
  }

  // ---------------------------------------------------------------- from a name to a call

  /** A registration gets a slot that had no function, in the live incarnation of the caller. */
  lemma Registered(s: Sys, t: int, who: int, name: string) returns (i: int)
    requires Inv(s) && Enabled(s, Register(t, who, name)) && Step(s, Register(t, who, name)).names != s.names
    ensures 0 <= i < |s.proc[who].func| && !s.proc[who].func[i]
    ensures var s', x := Step(s, Register(t, who, name)),
              Entry(Truncated(name), Desc(who, s.proc[who].gen, i, s.proc[who].inc));
            && Inv(s') && Served(s', x.to) && s'.names == s.names + [x] && (|name| <= NAME_MAX ==> First(s'.names, x))
            && forall j :: 0 <= j < |s.proc[who].func| && j != i ==> s'.proc[who].func[j] == s.proc[who].func[j]
  {
    hide Counts, Incs, Looks, Names, Frames;
    ActorLive(s, t, who);
    StepInv(s, Register(t, who, name));
    i := FirstFunc(s.proc[who].func, 0);
    var names' := Step(s, Register(t, who, name)).names;
    assert names'[|s.names|] == Entry(Truncated(name), Desc(who, s.proc[who].gen, i, s.proc[who].inc));
  }

  /** A lookup gives the reference of the entry with the name asked for. */
  lemma Found(s: Sys, u: int, x: Entry)
    requires Inv(s) && u in s.task && First(s.names, x)
    ensures var s' := Step(s, FindName(u, x.name)); u in s'.task && s'.task[u].look == x.to
  {
    hide Inv;
    var k := FindEntry(s.names, x.name, 0);
    var j :| 0 <= j < |s.names| && s.names[j] == x && forall i :: 0 <= i < j ==> s.names[i].name != x.name;
    assert k <= j;
  }

  /** An open puts the reference in a slot that was empty. */
  lemma Opened(s: Sys, u: int, c: int) returns (k: int)
    requires Inv(s) && Enabled(s, OpenDesc(u, c)) && exists j :: 0 <= j < |s.proc[c].dsc| && Empty(s.proc[c].dsc[j])
    ensures 0 <= k < |s.proc[c].dsc| && Empty(s.proc[c].dsc[k])
    ensures var s' := Step(s, OpenDesc(u, c)); Inv(s') && Holds(s', c, s.proc[c].inc, k, s.task[u].look)
  {
    hide Counts, Incs, Looks, Names, Frames;
    ActorLive(s, u, c);
    StepInv(s, OpenDesc(u, c));
    k := FirstEmpty(s.proc[c].dsc, NUM_OF_MSGDSC, 0);
  }

  lemma Fetched(s: Sys, v: int, c: int, inc: int, k: int, d: Desc)
    requires Inv(s) && Enabled(s, FetchDesc(v, c, k)) && Holds(s, c, inc, k, d)
    ensures var s' := Step(s, FetchDesc(v, c, k)); v in s'.task && s'.task[v].look == d && Inv(s')
  {
    hide Counts, Incs, Looks, Names, Frames;
    StepInv(s, FetchDesc(v, c, k));
  }

  /** A call by task `v` now gets in: to slot `d.dsc` of the incarnation that `d` was made for, or
      to the function of the kernel. */
  ghost predicate Reached(s: Sys, v: int, d: Desc) {
    && Inv(s) && v in s.task && s.task[v].look == d && RefOk(s.proc, d) && Answers(s, d) && Served(s, d)
    && (d.pid > 0 ==> Entered(s, v, true) && Step(s, Enter(v, true)).task[v].frames == s.task[v].frames + [d])
  }

  lemma Called(s: Sys, v: int)
    requires Inv(s) && v in s.task && Served(s, s.task[v].look)
    ensures Reached(s, v, s.task[v].look)
  {
    hide Counts, Incs, Names, Frames;
  }

  lemma KnownStep(s: Sys, e: Event, x: Entry)
    requires Inv(s) && Enabled(s, e) && Known(s, x) && Harmless(e, x.to) && x.to.inc !in Step(s, e).cleaned
    ensures Known(Step(s, e), x) && Inv(Step(s, e))
  {
    hide Inv, Enabled, Step, Served, First;
    ServedStep(s, e, x.to);
    NameStep(s, e, x);
    StepInv(s, e);
  }

  /** The one slot that an open has written. */
  ghost predicate Wrote(s: Sys, s': Sys, c: int, k: int) {
    && 0 <= c < |s.proc| && c < |s'.proc| && 0 <= k < |s.proc[c].dsc| && k < |s'.proc[c].dsc|
    && s'.proc[c].dsc[k] != s.proc[c].dsc[k]
  }

  lemma WroteHolds(s: Sys, u: int, c: int, k: int)
    requires Inv(s) && Enabled(s, OpenDesc(u, c)) && Wrote(s, Step(s, OpenDesc(u, c)), c, k)
    ensures Inv(Step(s, OpenDesc(u, c))) && Holds(Step(s, OpenDesc(u, c)), c, s.proc[c].inc, k, s.task[u].look)
  {
    hide Counts, Incs, Looks, Names, Frames;
    ActorLive(s, u, c);
    StepInv(s, OpenDesc(u, c));
  }

  /** The states on the way from a registration to a call, and what happens in between. */
  datatype Way = Way(before: Sys, registered: Sys, asking: Sys, found: Sys, opening: Sys, stored: Sys, sending: Sys,
                     fetched: Sys, calling: Sys, es1: seq<Event>, es2: seq<Event>, es3: seq<Event>, es4: seq<Event>)

  /** Task `t` registers the name for `who`; later `u` finds it, opens it for process `c`, in slot
      `k`, and `v` sends through that slot.  Between its two lock regions each of `u` and `v` does
      nothing else, and nobody closes the slot. */
  ghost predicate Taken(w: Way, t: int, who: int, name: string, u: int, c: int, k: int, v: int) {
    && 0 <= who < |w.before.proc| && 0 <= c < |w.opening.proc|
    && Did(w.before, Register(t, who, name), w.registered) && w.registered.names != w.before.names
    && Ran(w.registered, w.es1, w.asking)
    && Did(w.asking, FindName(u, name), w.found)
    && Ran(w.found, w.es2, w.opening) && (forall e :: e in w.es2 ==> e.t != u)
    && Did(w.opening, OpenDesc(u, c), w.stored) && Wrote(w.opening, w.stored, c, k)
    && Ran(w.stored, w.es3, w.sending) && (forall e :: e in w.es3 ==> !Closes(e, c, k))
    && Did(w.sending, FetchDesc(v, c, k), w.fetched)
    && Ran(w.fetched, w.es4, w.calling) && (forall e :: e in w.es4 ==> e.t != v)
  }

  /** No program fails to load on the way. */
  ghost predicate AllLoad(es: seq<Event>) {
    forall e :: e in es && e.NewProcess? && e.mem ==> e.loads
  }

  /** What has not been cleaned up at the end was not before. */
  lemma NotCleaned(w: Way, t: int, who: int, name: string, u: int, c: int, k: int, v: int, inc: int)
    requires Taken(w, t, who, name, u, c, k, v) && inc !in w.calling.cleaned
    ensures inc !in w.fetched.cleaned && inc !in w.sending.cleaned && inc !in w.stored.cleaned
    ensures inc !in w.opening.cleaned && inc !in w.found.cleaned && inc !in w.asking.cleaned
  {
    hide Inv, Enabled, Step, Wrote;
    CleanedRun(w.fetched, w.es4);
    CleanedGrows(w.sending, FetchDesc(v, c, k));
    CleanedRun(w.stored, w.es3);
    CleanedGrows(w.opening, OpenDesc(u, c));
    CleanedRun(w.found, w.es2);
    CleanedGrows(w.asking, FindName(u, name));
  }

  /** From the registration to the open. */
  lemma NameOpens(w: Way, t: int, who: int, name: string, u: int, c: int, k: int, v: int, x: Entry)
    requires Taken(w, t, who, name, u, c, k, v) && Known(w.registered, x)
    requires x.name == name && x.to.inc !in w.calling.cleaned
    requires (x.to.pid == 0 && x.to.dsc == 0) ==> AllLoad(w.es1) && AllLoad(w.es2)
    ensures Known(w.stored, x) && Inv(w.stored) && Holds(w.stored, c, w.opening.proc[c].inc, k, x.to)
  {
    hide Inv, Enabled, Step, Served, Holds, Wrote, First;
    NotCleaned(w, t, who, name, u, c, k, v, x.to.inc);
    KnownRun(w.registered, w.es1, x);
    assert u in w.asking.task by { Asks(w.asking, FindName(u, name)); }
    Found(w.asking, u, x);
    KnownStep(w.asking, FindName(u, name), x);
    KnownRun(w.found, w.es2, x);
    LookRun(w.found, w.es2, u);
    KnownStep(w.opening, OpenDesc(u, c), x);
    WroteHolds(w.opening, u, c, k);
  }

  /** From the open to the call. */
  lemma SlotCalls(w: Way, t: int, who: int, name: string, u: int, c: int, k: int, v: int, x: Entry)
    requires Taken(w, t, who, name, u, c, k, v) && Known(w.stored, x) && !Empty(x.to)
    requires Holds(w.stored, c, w.opening.proc[c].inc, k, x.to) && w.opening.proc[c].inc !in w.sending.cleaned
    requires x.to.inc !in w.calling.cleaned
    requires (x.to.pid == 0 && x.to.dsc == 0) ==> AllLoad(w.es3) && AllLoad(w.es4)
    ensures Inv(w.calling) && v in w.calling.task && w.calling.task[v].look == x.to && Served(w.calling, x.to)
  {
    hide Inv, Enabled, Step, Served, Holds, Wrote, Empty, First;
    NotCleaned(w, t, who, name, u, c, k, v, x.to.inc);
    var inc := w.opening.proc[c].inc;
    KnownRun(w.stored, w.es3, x);
    HoldsRun(w.stored, w.es3, c, inc, k, x.to);
    Fetched(w.sending, v, c, inc, k, x.to);
    KnownStep(w.sending, FetchDesc(v, c, k), x);
    KnownRun(w.fetched, w.es4, x);
    LookRun(w.fetched, w.es4, v);
  }

  /** A name of at most 15 characters leads to the slot it was registered for, in the very
      incarnation that registered it, whatever the others do in between, until that incarnation
      is cleaned up. */
  lemma NameReaches(w: Way, t: int, who: int, name: string, u: int, c: int, k: int, v: int) returns (i: int)
    requires Taken(w, t, who, name, u, c, k, v) && |name| <= NAME_MAX
    requires w.before.proc[who].inc !in w.calling.cleaned && w.opening.proc[c].inc !in w.sending.cleaned
    requires who > 0 || AllLoad(w.es1 + w.es2 + w.es3 + w.es4)
    ensures var p := w.before.proc[who]; 0 <= i < |p.func| && !p.func[i]
    ensures Reached(w.calling, v, Desc(who, w.before.proc[who].gen, i, w.before.proc[who].inc))
  {
    Begun(w, t, who, name, u, c, k, v);
    hide Inv, Enabled, Step, Served, Holds, Taken, Truncated, Reached, First;
    i := Registered(w.before, t, who, name);
    var x := Entry(name, Desc(who, w.before.proc[who].gen, i, w.before.proc[who].inc));
    Short(name);
    GenStarted(w.before, who);
    if who == 0 {
      AllLoadParts(w);
    }
    NameOpens(w, t, who, name, u, c, k, v, x);
    SlotCalls(w, t, who, name, u, c, k, v, x);
    Called(w.calling, v);
  }

  lemma Begun(w: Way, t: int, who: int, name: string, u: int, c: int, k: int, v: int)
    requires Taken(w, t, who, name, u, c, k, v)
    ensures Did(w.before, Register(t, who, name), w.registered) && w.registered.names != w.before.names
  {
    hide Did, Ran, Wrote;
  }

  lemma AllLoadParts(w: Way)
    requires AllLoad(w.es1 + w.es2 + w.es3 + w.es4)
    ensures AllLoad(w.es1) && AllLoad(w.es2) && AllLoad(w.es3) && AllLoad(w.es4)
  {
  }

  lemma Asks(s: Sys, e: Event)
    requires Inv(s) && Enabled(s, e)
    ensures e.FindName? ==> e.t in s.task
    ensures e.Register? ==> e.t in s.task && 0 <= e.who < |s.proc|
    ensures e.OpenDesc? ==> 0 <= e.who < |s.proc|
  {
  }

  lemma Short(name: string)
    requires |name| <= NAME_MAX
    ensures Truncated(name) == name
  {
  }

  lemma GenStarted(s: Sys, p: int)
    requires Inv(s) && 0 <= p < |s.proc|
    ensures s.proc[p].gen >= 1
  {
  }

  // ---------------------------------------------------------------- coming and going

  /** A process that has been loaded is a new incarnation, and its creator can call it. */
  lemma NewServed(s: Sys, t: int)
    requires Inv(s) && Enabled(s, NewProcess(t, true, true)) && exists p :: 0 < p < |s.proc| && !s.proc[p].valid
    ensures var s' := Step(s, NewProcess(t, true, true));
            && Inv(s') && t in s'.task
            && var d := s'.task[t].look;
            && d.pid > 0 && d.dsc == 0 && Served(s', d) && s'.proc[d.pid].running == 0 && !s'.proc[d.pid].exiting
            && d.inc !in s'.cleaned && !s.proc[d.pid].valid && forall q :: 0 <= q < |s.proc| && s.proc[q].valid ==>
              s.proc[q].inc != d.inc
  {
    hide Counts, Looks, Names, Frames;
    StepInv(s, NewProcess(t, true, true));
  }

  ghost predicate Leaving(s: Sys, p: int, inc: int) {
    0 <= p < |s.proc| && s.proc[p].valid && s.proc[p].inc == inc && s.proc[p].exiting
  }

  lemma LeavingStep(s: Sys, e: Event, p: int, inc: int)
    requires Inv(s) && Enabled(s, e) && Leaving(s, p, inc)
    ensures Leaving(Step(s, e), p, inc) || inc in Step(s, e).cleaned
  {
    hide Counts, Incs, Names;
    if e.Leave? || e.SetExit? {
      LastFrame(s, e.t);
    } else if e.SendDesc? {
      assert RefOk(s.proc, s.proc[e.who].dsc[e.to]);
    } else if e.Enter? {
      assert RefOk(s.proc, s.task[e.t].look);
    }
  }

  lemma {:induction false} LeavingRun(s: Sys, es: seq<Event>, p: int, inc: int)
    requires Inv(s) && Possible(s, es) && (Leaving(s, p, inc) || inc in s.cleaned)
    ensures Inv(After(s, es)) && (Leaving(After(s, es), p, inc) || inc in After(s, es).cleaned)
    decreases |es|
  {
    hide Inv, Enabled, Step, Leaving;
    if es != [] {
      if Leaving(s, p, inc) {
        LeavingStep(s, es[0], p, inc);
      }
      CleanedGrows(s, es[0]);
      StepInv(s, es[0]);
      LeavingRun(Step(s, es[0]), es[1..], p, inc);
    }
  }

  /** A process that exits goes: whatever happens, once no call to it is in progress it has been
      cleaned up. */
  lemma ExitEnds(s: Sys, t: int, es: seq<Event>)
    requires Inv(s) && Enabled(s, SetExit(t)) && Possible(Step(s, SetExit(t)), es)
    ensures 0 < Pid(s, t) < |s.proc|
    ensures var s', p := After(Step(s, SetExit(t)), es), Pid(s, t);
            Inv(s') && (FramesOf(s'.task, p) == {} ==> s.proc[p].inc in s'.cleaned)
  {
    hide Tables, Looks, Names, Frames, Incs, FramesOf;
    LastFrame(s, t);
    StepInv(s, SetExit(t));
    LeavingRun(Step(s, SetExit(t)), es, Pid(s, t), s.proc[Pid(s, t)].inc);
  }
}
