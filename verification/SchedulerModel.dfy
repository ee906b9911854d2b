/** The thread scheduler as a state machine: each region that holds the thread lock is one
    event, so runs of events are interleavings of the CPUs. */
module SchedulerModel {
  import opened List

  datatype TState = Exited | Running | WillStop | Stopped

  datatype Thread = Thread(state: TState, cpunum: int, stack: int)

  const CPUNUM_ANY: int := -1

  /** `pending` are the threads whose wakers have set the state but not yet the queue; `freed`
      are the stacks given back to the allocator. */
  datatype Sched = Sched(td: seq<Thread>, free: seq<int>, run: seq<int>, cur: map<int, int>, pending: set<int>,
    oldStack: int,
                         cpu0only: bool, freed: set<int>)

  datatype Event =
    | Schedule(cpu: int)
    | NewThread(stack: int)
    | InitCpu(cpu: int, stack: int)
    | Stop(cpu: int)
    | Exit(cpu: int)
    | WakeState(t: int)
    | WakeQueue(t: int)
    | Cpu0Only(on: bool)

  ghost predicate Tid(s: Sched, t: int) {
    0 <= t < |s.td|
  }

  ghost predicate OnCpu(cur: map<int, int>, t: int) {
    exists c :: c in cur && cur[c] == t
  }

  ghost predicate Current(s: Sched, t: int) {
    OnCpu(s.cur, t)
  }

  /** A thread that has been created and has not gone back to the free list. */
  ghost predicate Alive(s: Sched, t: int) {
    Tid(s, t) && t !in s.free
  }

  /** Each thread is in exactly one place, and its state is the one for that place. */
  ghost predicate Placed(s: Sched, t: int)
    requires Tid(s, t)
  {
    && (t in s.free ==> s.td[t].state == Exited && t !in s.run && t !in s.pending && !Current(s, t))
    && (t in s.run ==> s.td[t].state == Running && t !in s.pending && !Current(s, t))
    && (t in s.pending ==> s.td[t].state == Running && !Current(s, t))
    && (Current(s, t) ==> s.td[t].state != Stopped)
    && (t in s.free || t in s.run || t in s.pending || Current(s, t) || s.td[t].state == Stopped)
  }

  ghost predicate Places(s: Sched) {
    && Distinct(s.free) && Distinct(s.run)
    && (forall t :: t in s.free || t in s.run || t in s.pending || Current(s, t) ==> Tid(s, t))
    && (forall t :: Tid(s, t) ==> Placed(s, t))
    && (forall c, d :: c in s.cur && d in s.cur && s.cur[c] == s.cur[d] ==> c == d)
  }

  /** A thread that is tied to a CPU is current on no other. */
  ghost predicate Pinned(s: Sched) {
    forall c :: c in s.cur ==> Tid(s, s.cur[c]) && (s.td[s.cur[c]].cpunum == CPUNUM_ANY || s.td[s.cur[c]].cpunum == c)
  }

  /** No two threads share a stack, and neither the stack waiting to be freed nor a freed one
      belongs to a thread. */
  ghost predicate Stacks(s: Sched) {
    && (forall t :: Alive(s, t) ==> s.td[t].stack > 0 && s.td[t].stack != s.oldStack && s.td[t].stack !in s.freed)
    && (forall t, u :: Alive(s, t) && Alive(s, u) && t != u ==> s.td[t].stack != s.td[u].stack)
    && s.oldStack >= 0 && s.oldStack !in s.freed && 0 !in s.freed
  }

  ghost predicate Inv(s: Sched) {
    Places(s) && Pinned(s) && Stacks(s)
  }

  // ---------------------------------------------------------------- the events

  function Fits(s: Sched, cpu: int, d: int): bool
    requires 0 <= d < |s.td|
  {
    var any := if s.cpu0only && cpu != 0 then cpu else CPUNUM_ANY;
    s.td[d].cpunum == any || s.td[d].cpunum == cpu
  }

  ghost predicate InRange(s: Sched) {
    forall i :: 0 <= i < |s.run| ==> 0 <= s.run[i] < |s.td|
  }

  /** The place in the queue of the first thread that may run on `cpu`. */
  ghost function FirstFit(s: Sched, cpu: int, i: nat): nat
    requires InRange(s) && i <= |s.run|
    ensures i <= FirstFit(s, cpu, i) <= |s.run|
    ensures forall j :: i <= j < FirstFit(s, cpu, i) ==> !Fits(s, cpu, s.run[j])
    ensures FirstFit(s, cpu, i) < |s.run| ==> Fits(s, cpu, s.run[FirstFit(s, cpu, i)])
    decreases |s.run| - i
  {
    if i == |s.run| || Fits(s, cpu, s.run[i]) then i else FirstFit(s, cpu, i + 1)
  }

  /** What the callers see to: a CPU is set up once, a new stack is nobody's, and nobody wakes
      a thread that has exited. */
  ghost predicate Enabled(s: Sched, e: Event) {
    match e
    case Schedule(cpu) => cpu in s.cur
    case NewThread(stack) => s.free != [] && stack > 0 && NewStack(s, stack)
    case InitCpu(cpu, stack) => s.free != [] && cpu !in s.cur && cpu >= 0 && stack > 0 && NewStack(s, stack)
    case Stop(cpu) => cpu in s.cur && Tid(s, s.cur[cpu]) && s.td[s.cur[cpu]].state != Exited
    case Exit(cpu) => cpu in s.cur
    case WakeState(t) => Tid(s, t) && s.td[t].state != Exited
    case WakeQueue(t) => t in s.pending
    case Cpu0Only(_) => true
  }

  ghost predicate NewStack(s: Sched, stack: int) {
    stack != s.oldStack && forall t :: Alive(s, t) ==> s.td[t].stack != stack
  }

  ghost function SetState(s: Sched, t: int, st: TState): Sched
    requires Tid(s, t)
  {
    s.(td := s.td[t := s.td[t].(state := st)])
  }

  /** The state after the current thread of `cpu` has given way to `d`. */
  ghost function Switched(s: Sched, cpu: int, d: int): Sched
    requires cpu in s.cur && Tid(s, s.cur[cpu]) && d in s.run
  {
    var o := s.cur[cpu];
    var s1 := s.(run := Del(s.run, d), cur := s.cur[cpu := d]);
    match s.td[o].state
    case Exited => s1.(oldStack := s.td[o].stack, free := s.free + [o])
    case Running => s1.(run := s1.run + [o])
    case _ => SetState(s1, o, Stopped)
  }

  ghost function FreeOld(s: Sched): Sched {
    if s.oldStack != 0 then s.(oldStack := 0, freed := s.freed + {s.oldStack}) else s
  }

  ghost function Step(s: Sched, e: Event): Sched
    requires Inv(s) && Enabled(s, e)
  {
    match e
    case Schedule(cpu) =>
      var s1 := FreeOld(s);
      InvRange(s);
      var i := FirstFit(s1, cpu, 0);
      if i == |s1.run| then s1 else Switched(s1, cpu, s1.run[i])
    case NewThread(stack) =>
      InvRange(s);
      s.(free := s.free[1..], td := s.td[s.free[0] := Thread(Running, CPUNUM_ANY, stack)], run := s.run + [s.free[0]],
        freed := s.freed - {stack})
    case InitCpu(cpu, stack) =>
      InvRange(s);
      s.(free := s.free[1..], td := s.td[s.free[0] := Thread(Running, cpu, stack)], cur := s.cur[cpu := s.free[0]],
        freed := s.freed - {stack})
    case Stop(cpu) => SetState(s, s.cur[cpu], WillStop)
    case Exit(cpu) => InvRange(s); SetState(s, s.cur[cpu], Exited)
    case WakeState(t) =>
      SetState(s, t, Running).(pending := if s.td[t].state == Stopped then s.pending + {t} else s.pending)
    case WakeQueue(t) => s.(pending := s.pending - {t}, run := s.run + [t])
    case Cpu0Only(on) => s.(cpu0only := on)
  }

  lemma InvRange(s: Sched)
    requires Inv(s)
    ensures InRange(s) && InRange(FreeOld(s)) && (s.free != [] ==> Tid(s, s.free[0]))
      && forall c :: c in s.cur ==> Tid(s, s.cur[c])
  {
    forall i | 0 <= i < |s.run| ensures 0 <= s.run[i] < |s.td| {
      var t := s.run[i];
      assert t in s.run;
    }
    if s.free != [] {
      var t := s.free[0];
      assert t in s.free;
    }
  }

  // ---------------------------------------------------------------- what every event keeps

  lemma CurrentMoved(cur: map<int, int>, cpu: int, d: int, t: int)
    requires cpu in cur ==> forall c, e :: c in cur && e in cur && cur[c] == cur[e] ==> c == e
    ensures OnCpu(cur[cpu := d], t) <==> t == d || (OnCpu(cur, t) && (cpu in cur ==> t != cur[cpu]))
  {
    var cur' := cur[cpu := d];
    if OnCpu(cur, t) && (cpu in cur ==> t != cur[cpu]) {
      var c :| c in cur && cur[c] == t;
      assert cur'[c] == t;
    }
    assert cur'[cpu] == d;
    if OnCpu(cur', t) && t != d {
      var c :| c in cur' && cur'[c] == t;
      assert cur[c] == t;
    }
  }

  lemma Appended(l: seq<int>, x: int)
    requires Distinct(l) && x !in l
    ensures Distinct(l + [x]) && forall y :: y in l + [x] <==> y in l || y == x
  {
  }

  lemma Popped(l: seq<int>)
    requires Distinct(l) && l != []
    ensures Distinct(l[1..]) && forall y :: y in l[1..] <==> y in l && y != l[0]
  {
    forall y | y in l && y != l[0] ensures y in l[1..] {}
    forall y | y in l[1..] ensures y != l[0] {}
  }

  lemma FreeOldInv(s: Sched)
    requires Inv(s)
    ensures Inv(FreeOld(s))
  {
    var s' := FreeOld(s);
    forall t | Tid(s', t) ensures Placed(s', t) {
      assert Placed(s, t);
    }
    forall t | Alive(s', t) ensures s'.td[t].stack > 0 && s'.td[t].stack != s'.oldStack && s'.td[t].stack !in s'.freed {
      assert Alive(s, t);
    }
    forall t, u | Alive(s', t) && Alive(s', u) && t != u ensures s'.td[t].stack != s'.td[u].stack {
      assert Alive(s, t) && Alive(s, u);
    }
    assert Places(s') by {
      forall t ensures Current(s', t) <==> Current(s, t) {}
    }
  }

  lemma SwitchedPlaces(s: Sched, cpu: int, d: int)
    requires Inv(s) && cpu in s.cur && d in s.run && Tid(s, s.cur[cpu])
    ensures Places(Switched(s, cpu, d)) && s.td[s.cur[cpu]].state != Stopped
  {
    var s', o := Switched(s, cpu, d), s.cur[cpu];
    assert Current(s, o) && Placed(s, o);
    assert Tid(s, d) && Placed(s, d);
    DelIs(s.run, d);
    if s.td[o].state == Exited {
      Appended(s.free, o);
    } else if s.td[o].state == Running {
      Appended(Del(s.run, d), o);
    }
    forall t ensures Current(s', t) <==> t == d || (Current(s, t) && t != o) {
      CurrentMoved(s.cur, cpu, d, t);
    }
    forall t | Tid(s', t) ensures Placed(s', t) {
      assert Placed(s, t);
    }
  }

  lemma SwitchedRest(s: Sched, cpu: int, d: int)
    requires Inv(s) && cpu in s.cur && d in s.run && Tid(s, s.cur[cpu]) && Tid(s, d) && s.oldStack == 0
    requires s.td[d].cpunum == CPUNUM_ANY || s.td[d].cpunum == cpu
    ensures Pinned(Switched(s, cpu, d)) && Stacks(Switched(s, cpu, d))
  {
    hide Places;
    var s', o := Switched(s, cpu, d), s.cur[cpu];
    assert o !in s.free by { NotFree(s, cpu); }
    forall c | c in s'.cur ensures Tid(s', s'.cur[c])
      && (s'.td[s'.cur[c]].cpunum == CPUNUM_ANY || s'.td[s'.cur[c]].cpunum == c) {
      if c != cpu {
        assert c in s.cur;
      }
    }
    forall t | Alive(s', t) ensures Alive(s, t) && s'.td[t].stack == s.td[t].stack
      && (s.td[o].state == Exited ==> t != o) {}
    assert Alive(s, o);
  }

  lemma NotFree(s: Sched, cpu: int)
    requires Places(s) && cpu in s.cur
    ensures Tid(s, s.cur[cpu]) && s.cur[cpu] !in s.free
  {
    assert Current(s, s.cur[cpu]) && Placed(s, s.cur[cpu]);
  }

  lemma ScheduleInv(s: Sched, cpu: int)
    requires Inv(s) && Enabled(s, Schedule(cpu))
    ensures Inv(Step(s, Schedule(cpu)))
  {
    hide Places, Pinned, Stacks, Switched;
    FreeOldInv(s);
    InvRange(s);
    var s1 := FreeOld(s);
    var i := FirstFit(s1, cpu, 0);
    if i < |s1.run| {
      var d := s1.run[i];
      assert d in s1.run;
      NotFree(s1, cpu);
      SwitchedPlaces(s1, cpu, d);
      SwitchedRest(s1, cpu, d);
    }
  }

  /** A thread block comes off the free list, and goes to the queue or to a CPU. */
  lemma CreateInv(s: Sched, cpunum: int, stack: int, cpu: int)
    requires Inv(s) && s.free != [] && stack > 0 && NewStack(s, stack) && (cpu >= 0 ==> cpu !in s.cur && cpunum == cpu)
    ensures Tid(s, s.free[0])
    ensures var f := s.free[0];
            var s1 := s.(free := s.free[1..], td := s.td[f := Thread(Running, cpunum, stack)],
              freed := s.freed - {stack});
            Inv(if cpu >= 0 then s1.(cur := s.cur[cpu := f]) else s1.(run := s.run + [f]))
  {
    InvRange(s);
    var f := s.free[0];
    var s1 := s.(free := s.free[1..], td := s.td[f := Thread(Running, cpunum, stack)], freed := s.freed - {stack});
    var s' := if cpu >= 0 then s1.(cur := s.cur[cpu := f]) else s1.(run := s.run + [f]);
    assert f in s.free && Placed(s, f);
    CreatePlaces(s, s', f, cpu);
    hide Places;
    assert Pinned(s') by {
      hide Stacks;
      forall c | c in s'.cur && c != cpu ensures c in s.cur && s'.cur[c] == s.cur[c] && s.cur[c] != f {
        NotFree(s, c);
      }
    }
    Popped(s.free) by { FreeDistinct(s); }
    CreateStacks(s, s', f, stack);
  }

  lemma CreateStacks(s: Sched, s': Sched, f: int, stack: int)
    requires Stacks(s) && Tid(s, f) && stack > 0 && NewStack(s, stack) && |s'.td| == |s.td| && s'.td[f].stack == stack
    requires forall t :: Alive(s', t) && t != f ==> Alive(s, t) && s'.td[t] == s.td[t]
    requires s'.oldStack == s.oldStack && s'.freed == s.freed - {stack}
    ensures Stacks(s')
  {
  }

  lemma FreeDistinct(s: Sched)
    requires Places(s)
    ensures Distinct(s.free)
  {
  }

  lemma CreatePlaces(s: Sched, s': Sched, f: int, cpu: int)
    requires Places(s) && s.free != [] && f == s.free[0] && Tid(s, f) && f !in s.run && f !in s.pending
      && !Current(s, f)
    requires s'.free == s.free[1..] && s'.pending == s.pending && |s'.td| == |s.td| && s'.td[f].state == Running
    requires forall t :: Tid(s, t) && t != f ==> s'.td[t] == s.td[t]
    requires if cpu >= 0 then cpu !in s.cur && s'.cur == s.cur[cpu := f] && s'.run == s.run
      else s'.cur == s.cur && s'.run == s.run + [f]
    ensures Places(s')
  {
    Popped(s.free);
    Appended(s.run, f);
    forall t ensures Current(s', t) <==> Current(s, t) || (cpu >= 0 && t == f) {
      CurrentMoved(s.cur, cpu, f, t);
    }
    forall t | Tid(s', t) ensures Placed(s', t) {
      assert Placed(s, t);
    }
    forall c, d | c in s'.cur && d in s'.cur && s'.cur[c] == s'.cur[d] ensures c == d {
      assert c != cpu && c in s.cur ==> Current(s, s.cur[c]);
      assert d != cpu && d in s.cur ==> Current(s, s.cur[d]);
    }
  }

  /** A change of state that fits the place the thread is in. */
  lemma SetStateInv(s: Sched, t: int, st: TState)
    requires Inv(s) && Tid(s, t) && t !in s.free && st != Stopped && (t in s.run || t in s.pending ==> st == Running)
    requires s.td[t].state != Stopped
    ensures Inv(SetState(s, t, st))
  {
    var s' := SetState(s, t, st);
    assert Placed(s, t);
    forall u ensures Current(s', u) <==> Current(s, u) {}
    forall u | Tid(s', u) ensures Placed(s', u) {
      assert Placed(s, u);
    }
    forall u | Alive(s', u) ensures Alive(s, u) && s'.td[u].stack == s.td[u].stack {}
  }

  lemma WakeStoppedInv(s: Sched, t: int)
    requires Inv(s) && Tid(s, t) && s.td[t].state == Stopped
    ensures Inv(SetState(s, t, Running).(pending := s.pending + {t}))
  {
    var s' := SetState(s, t, Running).(pending := s.pending + {t});
    assert Placed(s, t);
    forall u ensures Current(s', u) <==> Current(s, u) {}
    forall u | Tid(s', u) ensures Placed(s', u) {
      assert Placed(s, u);
    }
    forall u | Alive(s', u) ensures Alive(s, u) && s'.td[u].stack == s.td[u].stack {}
  }

  lemma WakeQueueInv(s: Sched, t: int)
    requires Inv(s) && t in s.pending
    ensures Inv(s.(pending := s.pending - {t}, run := s.run + [t]))
  {
    var s' := s.(pending := s.pending - {t}, run := s.run + [t]);
    assert Placed(s, t);
    Appended(s.run, t);
    forall u ensures Current(s', u) <==> Current(s, u) {}
    forall u | Tid(s', u) ensures Placed(s', u) {
      assert Placed(s, u);
    }
    forall u | Alive(s', u) ensures Alive(s, u) && s'.td[u].stack == s.td[u].stack {}
  }

  lemma Cpu0OnlyInv(s: Sched, on: bool)
    requires Inv(s)
    ensures Inv(s.(cpu0only := on))
  {
    var s' := s.(cpu0only := on);
    forall u ensures Current(s', u) <==> Current(s, u) {}
    forall u | Tid(s', u) ensures Placed(s', u) {
      assert Placed(s, u);
    }
    forall u | Alive(s', u) ensures Alive(s, u) {}
  }

  /** Every event keeps the invariant. */
  lemma StepInv(s: Sched, e: Event)
    requires Inv(s) && Enabled(s, e)
    ensures Inv(Step(s, e))
  {
    hide Inv, NewStack;
    match e
    case Schedule(cpu) => ScheduleInv(s, cpu);
    case NewThread(stack) => CreateInv(s, CPUNUM_ANY, stack, -1);
    case InitCpu(cpu, stack) => CreateInv(s, cpu, stack, cpu);
    case Stop(cpu) => CurrentLive(s, cpu); SetStateInv(s, s.cur[cpu], WillStop);
    case Exit(cpu) => CurrentLive(s, cpu); SetStateInv(s, s.cur[cpu], Exited);
    case WakeState(t) =>
      if s.td[t].state == Stopped {
        WakeStoppedInv(s, t);
      } else {
        ExitedFree(s, t);
        SetStateInv(s, t, Running);
      }
    case WakeQueue(t) => WakeQueueInv(s, t);
    case Cpu0Only(on) => Cpu0OnlyInv(s, on);
  }

  lemma ExitedFree(s: Sched, t: int)
    requires Inv(s) && Tid(s, t) && s.td[t].state != Exited
    ensures t !in s.free
  {
    assert Placed(s, t);
  }

  lemma CurrentLive(s: Sched, cpu: int)
    requires Inv(s) && cpu in s.cur
    ensures Tid(s, s.cur[cpu]) && s.cur[cpu] !in s.free && s.cur[cpu] !in s.run && s.cur[cpu] !in s.pending
    ensures s.td[s.cur[cpu]].state != Stopped
  {
    assert Current(s, s.cur[cpu]) && Placed(s, s.cur[cpu]);
  }

  // ---------------------------------------------------------------- runs

  ghost predicate Possible(s: Sched, es: seq<Event>)
    decreases |es|
  {
    es != [] ==> Inv(s) && Enabled(s, es[0]) && Possible(Step(s, es[0]), es[1..])
  }

  ghost function After(s: Sched, es: seq<Event>): Sched
    requires Possible(s, es)
    decreases |es|
  {
    if es == [] then s else After(Step(s, es[0]), es[1..])
  }

  /** `thread_init_global` */
  ghost function Start(n: nat): Sched {
    Sched(seq(n, i => Thread(Exited, CPUNUM_ANY, 0)), seq(n, i => i), [], map[], {}, 0, false, {})
  }

  lemma StartInv(n: nat)
    ensures Inv(Start(n))
  {
    var s := Start(n);
    forall t | Tid(s, t) ensures t in s.free {
      assert s.free[t] == t;
    }
  }

  /** Whatever the CPUs do, in whatever order, every state on the way is in order. */
  lemma {:induction false} RunInv(n: nat, es: seq<Event>)
    requires Possible(Start(n), es)
    ensures Inv(After(Start(n), es))
  {
    StartInv(n);
    RunKeeps(Start(n), es);
  }

  lemma {:induction false} RunKeeps(s: Sched, es: seq<Event>)
    requires Inv(s) && Possible(s, es)
    ensures Inv(After(s, es))
    decreases |es|
  {
    hide Inv, Enabled, Step;
    if es != [] {
      StepInv(s, es[0]);
      RunKeeps(Step(s, es[0]), es[1..]);
    }
  }

  // ---------------------------------------------------------------- wakeups

  /** The thread `t` itself asks to stop or to exit. */
  ghost predicate ByItself(s: Sched, e: Event, t: int) {
    (e.Stop? || e.Exit?) && e.cpu in s.cur && s.cur[e.cpu] == t
  }

  ghost predicate Awake(s: Sched, t: int) {
    Alive(s, t) && s.td[t].state == Running
  }

  lemma WakeWakes(s: Sched, t: int)
    requires Inv(s) && Enabled(s, WakeState(t))
    ensures Awake(Step(s, WakeState(t)), t)
  {
    ExitedFree(s, t);
  }

  lemma AwakeStep(s: Sched, e: Event, t: int)
    requires Inv(s) && Enabled(s, e) && Awake(s, t) && !ByItself(s, e, t)
    ensures Awake(Step(s, e), t)
  {
    hide FirstFit, Pinned, Stacks, NewStack;
    assert Placed(s, t);
    InvRange(s);
    if e.Schedule? {
      CurrentLive(s, e.cpu);
    } else if (e.NewThread? || e.InitCpu?) {
      var f := s.free[0];
      assert f in s.free;
      Popped(s.free);
    }
  }

  /** A wakeup is not lost: until the thread asks to stop or exit again it is current, in the
      queue, or about to be put there by its waker. */
  lemma {:induction false} WakeKept(s: Sched, es: seq<Event>, t: int)
    requires Inv(s) && Possible(s, es) && Awake(s, t) && NotByItself(s, es, t)
    ensures var s' := After(s, es); Inv(s') && Awake(s', t) && (Current(s', t) || t in s'.run || t in s'.pending)
    decreases |es|
  {
    hide Inv, Enabled, Step;
    if es == [] {
      AwakePlace(s, t);
    } else {
      AwakeStep(s, es[0], t);
      StepInv(s, es[0]);
      WakeKept(Step(s, es[0]), es[1..], t);
    }
  }

  ghost predicate NotByItself(s: Sched, es: seq<Event>, t: int)
    requires Possible(s, es)
    decreases |es|
  {
    es != [] ==> !ByItself(s, es[0], t) && NotByItself(Step(s, es[0]), es[1..], t)
  }

  lemma AwakePlace(s: Sched, t: int)
    requires Inv(s) && Awake(s, t)
    ensures Current(s, t) || t in s.run || t in s.pending
  {
    assert Placed(s, t);
  }

  // ---------------------------------------------------------------- the queue

  lemma {:induction false} DelIndex(l: seq<int>, k: nat, i: nat)
    requires k < |l| && i < |l| && Distinct(l) && i != k
    ensures l[k] in l && |Del(l, l[k])| == |l| - 1
    ensures var j := if k < i then i - 1 else i; j < |Del(l, l[k])| && Del(l, l[k])[j] == l[i]
    decreases |l|
  {
    DelLen(l, l[k]);
    if k > 0 && i > 0 {
      assert l[1..][k - 1] == l[k] && l[1..][i - 1] == l[i];
      DelIndex(l[1..], k - 1, i - 1);
    }
  }

  lemma {:induction false} DelLen(l: seq<int>, x: int)
    requires x in l
    ensures |Del(l, x)| == |l| - 1
    decreases |l|
  {
    if l[0] != x {
      DelLen(l[1..], x);
    }
  }

  /** A thread in the queue never falls back, and a schedule on a CPU it may run on picks it
      or moves it up. */
  lemma QueueFalls(s: Sched, e: Event, i: nat) returns (j: nat)
    requires Inv(s) && Enabled(s, e) && i < |s.run| && Tid(s, s.run[i])
    ensures var t, s' := s.run[i], Step(s, e);
            || (e.Schedule? && e.cpu in s'.cur && s'.cur[e.cpu] == t)
            || (j <= i && j < |s'.run| && s'.run[j] == t && (e.Schedule? && Fits(s, e.cpu, t) ==> j < i))
  {
    hide Places, Pinned, Stacks, NewStack, Switched;
    j := i;
    InvRange(s);
    if e.Schedule? {
      var s1 := FreeOld(s);
      var k := FirstFit(s1, e.cpu, 0);
      NotFree(s, e.cpu);
      RunDistinct(s);
      if k < |s1.run| {
        j := SwitchFalls(s1, e.cpu, k, i);
        assert k > i ==> !Fits(s1, e.cpu, s1.run[i]);
      }
    }
  }

  lemma RunDistinct(s: Sched)
    requires Places(s)
    ensures Distinct(s.run)
  {
  }

  lemma SwitchFalls(s: Sched, cpu: int, k: nat, i: nat) returns (j: nat)
    requires cpu in s.cur && Tid(s, s.cur[cpu]) && k < |s.run| && i < |s.run| && Distinct(s.run)
    ensures s.run[k] in s.run
    ensures var s' := Switched(s, cpu, s.run[k]);
            && s'.cur == s.cur[cpu := s.run[k]]
            && (k != i ==> j == (if k < i then i - 1 else i) && j < |s'.run| && s'.run[j] == s.run[i])
  {
    j := if k < i then i - 1 else i;
    if k != i {
      DelIndex(s.run, k, i);
    } else {
      assert s.run[k] in s.run;
    }
  }

  /** The schedules on CPUs that `t` may run on. */
  ghost function Chances(s: Sched, es: seq<Event>, t: int): nat
    requires Possible(s, es) && Tid(s, t)
    decreases |es|
  {
    if es == [] then 0
    else
      SameThreads(s, es[0]);
      (if es[0].Schedule? && Fits(s, es[0].cpu, t) then 1 else 0) + Chances(Step(s, es[0]), es[1..], t)
  }

  lemma SameThreads(s: Sched, e: Event)
    requires Inv(s) && Enabled(s, e)
    ensures |Step(s, e).td| == |s.td|
  {
    InvRange(s);
    if e.Schedule? {
      CurrentLive(s, e.cpu);
    }
  }

  /** At no point of the run does a schedule pick `t`. */
  ghost predicate NeverPicked(s: Sched, es: seq<Event>, t: int)
    requires Possible(s, es)
    decreases |es|
  {
    es != [] ==>
      && !(es[0].Schedule? && es[0].cpu in Step(s, es[0]).cur && Step(s, es[0]).cur[es[0].cpu] == t)
      && NeverPicked(Step(s, es[0]), es[1..], t)
  }

  /** A thread waits for no more chances than there are threads before it in the queue. */
  lemma {:induction false} NoStarvation(s: Sched, es: seq<Event>, i: nat)
    requires Inv(s) && Possible(s, es) && i < |s.run| && Tid(s, s.run[i]) && NeverPicked(s, es, s.run[i])
    ensures Chances(s, es, s.run[i]) <= i
    decreases |es|
  {
    hide Inv, Enabled, Step, Fits;
    if es != [] {
      var t := s.run[i];
      var j := QueueFalls(s, es[0], i);
      StepInv(s, es[0]);
      SameThreads(s, es[0]);
      NoStarvation(Step(s, es[0]), es[1..], j);
    }
  }

  // ---------------------------------------------------------------- stacks

  /** A stack is freed only once no thread owns it, so no CPU is running on it. */
  lemma FreedStack(s: Sched, e: Event, x: int)
    requires Inv(s) && Enabled(s, e) && x in Step(s, e).freed && x !in s.freed
    ensures e.Schedule? && x == s.oldStack != 0
    ensures forall c :: c in s.cur ==> Tid(s, s.cur[c]) && s.td[s.cur[c]].stack != x
    ensures var s' := Step(s, e); forall c :: c in s'.cur ==> Tid(s', s'.cur[c]) && s'.td[s'.cur[c]].stack != x
  {
    hide Places, Pinned, FirstFit, NewStack;
    var s' := Step(s, e);
    StepInv(s, e);
    forall c | c in s.cur ensures Tid(s, s.cur[c]) && s.td[s.cur[c]].stack != x {
      NotFree(s, c);
      assert Alive(s, s.cur[c]);
    }
    forall c | c in s'.cur ensures Tid(s', s'.cur[c]) && s'.td[s'.cur[c]].stack != x {
      NotFree(s', c);
      assert Alive(s', s'.cur[c]);
    }
  }

  ghost predicate LeftBehind(s: Sched, s': Sched, cpu: int, o: int)
    requires Tid(s, o)
  {
    && s.td[o].state == Exited && s'.oldStack == s.td[o].stack
    && cpu in s'.cur && s'.cur[cpu] != o && o in s'.free
  }

  /** The stack that waits to be freed is freed before another one takes its place, and it is
      the stack of a thread whose CPU has moved on. */
  lemma PendingStack(s: Sched, e: Event)
    requires Inv(s) && Enabled(s, e) && Step(s, e).oldStack != s.oldStack
    ensures e.Schedule? && (s.oldStack != 0 ==> s.oldStack in Step(s, e).freed)
    ensures Step(s, e).oldStack != 0 ==>
      e.cpu in s.cur && Tid(s, s.cur[e.cpu]) && LeftBehind(s, Step(s, e), e.cpu, s.cur[e.cpu])
  {
    hide Pinned, Stacks, NewStack;
    if e.Schedule? {
      CurrentLive(s, e.cpu);
      InvRange(s);
      var s1 := FreeOld(s);
      var k := FirstFit(s1, e.cpu, 0);
      if k < |s1.run| {
        var d := s1.run[k];
        assert d in s.run;
      }
    }
  }
}
