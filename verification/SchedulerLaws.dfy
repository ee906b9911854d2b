/** What the threads of the scheduler may count on, over whole runs: stopping stops, waking runs
    again, exiting gives the block and the stack back, and CPUs run only what they may. */
module SchedulerLaws {
  import opened List
  import opened SchedulerModel

  // ---------------------------------------------------------------- one schedule

  /** A thread tied to a CPU runs there only, any other on every CPU, or on CPU 0 only while
      that has been asked for. */
  ghost predicate MayRun(s: Sched, cpu: int, t: int) {
    Tid(s, t) && (s.td[t].cpunum == cpu || (s.td[t].cpunum == CPUNUM_ANY && (cpu == 0 || !s.cpu0only)))
  }

  /** The thread that has waited longest of those that may run on `cpu`. */
  ghost predicate NextFor(s: Sched, cpu: int, i: int) {
    0 <= i < |s.run| && MayRun(s, cpu, s.run[i]) && forall j :: 0 <= j < i ==> !MayRun(s, cpu, s.run[j])
  }

  /** There is something to switch to. */
  ghost predicate Ready(s: Sched, cpu: int) {
    exists i :: NextFor(s, cpu, i)
  }

  lemma MayRunFits(s: Sched, cpu: int, t: int)
    requires Tid(s, t)
    ensures MayRun(s, cpu, t) <==> Fits(s, cpu, t)
  {
  }

  lemma {:induction false} DelAt(l: seq<int>, i: nat)
    requires i < |l| && Distinct(l)
    ensures l[i] in l && Del(l, l[i]) == l[..i] + l[i + 1..]
    decreases |l|
  {
    if i > 0 {
      assert l[1..][i - 1] == l[i];
      DelAt(l[1..], i - 1);
      assert [l[0]] + l[1..][..i - 1] == l[..i] && l[1..][i..] == l[i + 1..];
    }
  }

  lemma NextIsFirst(s: Sched, cpu: int)
    requires Inv(s)
    ensures InRange(FreeOld(s))
    ensures var i := FirstFit(FreeOld(s), cpu, 0); if i < |s.run| then NextFor(s, cpu, i) else !Ready(s, cpu)
    ensures forall i :: NextFor(s, cpu, i) ==> i == FirstFit(FreeOld(s), cpu, 0)
  {
    InvRange(s);
    var s1 := FreeOld(s);
    forall i | 0 <= i < |s.run| ensures MayRun(s, cpu, s.run[i]) <==> Fits(s1, cpu, s1.run[i]) {
      MayRunFits(s, cpu, s.run[i]);
    }
  }

  /** The stack that the next schedule frees. */
  ghost function Waiting(s: Sched): set<int> {
    if s.oldStack != 0 then {s.oldStack} else {}
  }

  /** A schedule with nothing to switch to. */
  lemma ScheduleIdle(s: Sched, cpu: int)
    requires Inv(s) && Enabled(s, Schedule(cpu)) && !Ready(s, cpu)
    ensures Step(s, Schedule(cpu)) == s.(oldStack := 0, freed := s.freed + Waiting(s))
  {
    hide Places, Pinned, Stacks, FirstFit;
    NextIsFirst(s, cpu);
  }

  /** From `s` to `s'` the current thread of `cpu` gives way to the one at place `i` of the queue.
      The others keep their order, and what becomes of the old one is up to its state. */
  ghost predicate Handover(s: Sched, s': Sched, cpu: int, i: int)
    requires 0 <= i < |s.run| && cpu in s.cur && Tid(s, s.cur[cpu])
  {
    var o, x, q := s.cur[cpu], s.td[s.cur[cpu]], s.run[..i] + s.run[i + 1..];
    && s'.cur == s.cur[cpu := s.run[i]] && s'.pending == s.pending && s'.cpu0only == s.cpu0only
    && s'.freed == s.freed + Waiting(s)
    && match x.state
       case Exited => s'.run == q && s'.td == s.td && s'.free == s.free + [o] && s'.oldStack == x.stack
       case Running => s'.run == q + [o] && s'.td == s.td && s'.free == s.free && s'.oldStack == 0
       case WillStop =>
         s'.run == q && s'.td == s.td[o := x.(state := Stopped)] && s'.free == s.free && s'.oldStack == 0
       case Stopped => false
  }

  /** A schedule picks the thread that has waited longest of those that may run here. */
  lemma SchedulePicks(s: Sched, cpu: int, i: int)
    requires Inv(s) && Enabled(s, Schedule(cpu)) && NextFor(s, cpu, i)
    ensures Tid(s, s.cur[cpu]) && s.cur[cpu] != s.run[i] && Handover(s, Step(s, Schedule(cpu)), cpu, i)
  {
    hide Pinned, Stacks, FirstFit;
    NextIsFirst(s, cpu);
    CurrentLive(s, cpu);
    DelAt(s.run, i);
  }

  ghost predicate Scheduled(s: Sched, s': Sched, cpu: int)
    requires cpu in s.cur && Tid(s, s.cur[cpu])
  {
    && (!Ready(s, cpu) ==> s' == s.(oldStack := 0, freed := s.freed + Waiting(s)))
    && forall i :: NextFor(s, cpu, i) ==> Handover(s, s', cpu, i)
  }

  lemma ScheduleIs(s: Sched, cpu: int)
    requires Inv(s) && Enabled(s, Schedule(cpu))
    ensures Tid(s, s.cur[cpu]) && Scheduled(s, Step(s, Schedule(cpu)), cpu)
  {
    hide Places, Pinned, Stacks, Handover, MayRun;
    CurrentLive(s, cpu);
    if Ready(s, cpu) {
      forall i | NextFor(s, cpu, i) ensures Handover(s, Step(s, Schedule(cpu)), cpu, i) {
        SchedulePicks(s, cpu, i);
      }
    } else {
      ScheduleIdle(s, cpu);
    }
  }

  // ---------------------------------------------------------------- stopping

  /** Along the run nobody wakes `t`, and `t` itself does not exit. */
  ghost predicate LeftAlone(s: Sched, es: seq<Event>, t: int)
    requires Possible(s, es)
    decreases |es|
  {
    es != [] ==>
      && es[0] != WakeState(t) && !(es[0].Exit? && s.cur[es[0].cpu] == t)
      && LeftAlone(Step(s, es[0]), es[1..], t)
  }

  lemma {:induction false} NotWoken(s: Sched, es: seq<Event>, t: int)
    requires Possible(s, es) && LeftAlone(s, es, t)
    ensures WakeState(t) !in es
    decreases |es|
  {
    hide Inv, Enabled, Step;
    if es != [] {
      NotWoken(Step(s, es[0]), es[1..], t);
    }
  }

  /** Some schedule on `cpu` along the run has something to switch to. */
  ghost predicate GivesWay(s: Sched, es: seq<Event>, cpu: int)
    requires Possible(s, es)
    decreases |es|
  {
    es != [] && ((es[0] == Schedule(cpu) && Ready(s, cpu)) || GivesWay(Step(s, es[0]), es[1..], cpu))
  }

  /** The thread `t` has stopped: it is on no CPU, in no queue, and nobody is about to queue it. */
  ghost predicate AtRest(s: Sched, t: int) {
    Tid(s, t) && s.td[t].state == Stopped && !Current(s, t) && t !in s.run && t !in s.pending && t !in s.free
  }

  lemma StoppedRests(s: Sched, t: int)
    requires Inv(s) && Tid(s, t) && s.td[t].state == Stopped
    ensures AtRest(s, t)
  {
    assert Placed(s, t);
  }

  lemma RestStep(s: Sched, e: Event, t: int)
    requires Inv(s) && Enabled(s, e) && AtRest(s, t) && e != WakeState(t)
    ensures AtRest(Step(s, e), t)
  {
    hide FirstFit, NewStack;
    StepInv(s, e);
    InvRange(s);
    if e.Schedule? || e.Stop? || e.Exit? {
      CurrentLive(s, e.cpu);
    } else if e.NewThread? || e.InitCpu? {
      assert s.free[0] in s.free;
    }
    StoppedRests(Step(s, e), t);
  }

  /** A thread at rest stays there until it is woken. */
  lemma {:induction false} RestRun(s: Sched, es: seq<Event>, t: int)
    requires Inv(s) && Possible(s, es) && AtRest(s, t) && WakeState(t) !in es
    ensures AtRest(After(s, es), t)
    decreases |es|
  {
    hide Inv, Enabled, Step, AtRest;
    if es != [] {
      RestStep(s, es[0], t);
      StepInv(s, es[0]);
      RestRun(Step(s, es[0]), es[1..], t);
    }
  }

  ghost predicate Stopping(s: Sched, cpu: int, t: int) {
    cpu in s.cur && s.cur[cpu] == t && Tid(s, t) && s.td[t].state == WillStop
  }

  lemma StoppingStep(s: Sched, e: Event, cpu: int, t: int)
    requires Inv(s) && Enabled(s, e) && Stopping(s, cpu, t) && e != WakeState(t) && e != Exit(cpu)
    ensures if e == Schedule(cpu) && Ready(s, cpu) then AtRest(Step(s, e), t) else Stopping(Step(s, e), cpu, t)
  {
    hide Pinned, Stacks, FirstFit, NewStack, Step, AtRest;
    CurrentLive(s, cpu);
    StepInv(s, e);
    match e
    case Schedule(c) =>
      if Ready(s, c) {
        var i :| NextFor(s, c, i);
        SchedulePicks(s, c, i);
        if c == cpu {
          StoppedRests(Step(s, e), t);
        }
      } else {
        ScheduleIdle(s, c);
      }
    case _ => StoppingOther(s, e, cpu, t);
  }

  lemma StoppingOther(s: Sched, e: Event, cpu: int, t: int)
    requires Inv(s) && Enabled(s, e) && Stopping(s, cpu, t) && e != WakeState(t) && e != Exit(cpu) && !e.Schedule?
    ensures Stopping(Step(s, e), cpu, t)
  {
    hide Pinned, Stacks, NewStack;
    CurrentLive(s, cpu);
    InvRange(s);
    if e.Exit? || e.Stop? {
      CurrentLive(s, e.cpu);
    } else if e.NewThread? || e.InitCpu? {
      assert s.free[0] in s.free;
    }
  }

  /** A thread that has asked to stop goes on until its CPU has another thread to run; from then
      on it is at rest, in every state of the run. */
  lemma {:induction false} StoppingRun(s: Sched, es: seq<Event>, cpu: int, t: int)
    requires Inv(s) && Possible(s, es) && Stopping(s, cpu, t) && LeftAlone(s, es, t)
    ensures var s' := After(s, es); if GivesWay(s, es, cpu) then AtRest(s', t) else Stopping(s', cpu, t)
    decreases |es|
  {
    hide Inv, Enabled, Step, Ready, AtRest;
    if es != [] {
      StoppingStep(s, es[0], cpu, t);
      StepInv(s, es[0]);
      var s1, rest := Step(s, es[0]), es[1..];
      if es[0] == Schedule(cpu) && Ready(s, cpu) {
        NotWoken(s1, rest, t);
        RestRun(s1, rest, t);
      } else {
        StoppingRun(s1, rest, cpu, t);
      }
    }
  }

  /** `thread_will_stop` has its effect: the thread goes on until its CPU has something else to run,
      and is then off the CPUs and queues in every state until it is woken. */
  lemma StopStops(s: Sched, cpu: int, es: seq<Event>)
    requires Inv(s) && Enabled(s, Stop(cpu)) && Possible(Step(s, Stop(cpu)), es)
      && LeftAlone(Step(s, Stop(cpu)), es, s.cur[cpu])
    ensures var s1, t := Step(s, Stop(cpu)), s.cur[cpu];
            var s' := After(s1, es);
            if GivesWay(s1, es, cpu) then AtRest(s', t) else Stopping(s', cpu, t)
  {
    StepInv(s, Stop(cpu));
    StoppingRun(Step(s, Stop(cpu)), es, cpu, s.cur[cpu]);
  }

  // ---------------------------------------------------------------- exiting

  ghost predicate Exiting(s: Sched, cpu: int, t: int, stack: int) {
    cpu in s.cur && s.cur[cpu] == t && Tid(s, t) && s.td[t].state == Exited && s.td[t].stack == stack
  }

  lemma ExitingStep(s: Sched, e: Event, cpu: int, t: int, stack: int)
    requires Inv(s) && Enabled(s, e) && Exiting(s, cpu, t, stack) && !(e == Schedule(cpu) && Ready(s, cpu))
    ensures Exiting(Step(s, e), cpu, t, stack)
  {
    hide Pinned, Stacks, FirstFit, NewStack;
    CurrentLive(s, cpu);
    InvRange(s);
    if e.Schedule? {
      ExitingSchedule(s, e.cpu, cpu, t, stack);
    } else if e.Exit? || e.Stop? {
      CurrentLive(s, e.cpu);
    } else if e.NewThread? || e.InitCpu? {
      assert s.free[0] in s.free;
    }
  }

  lemma ExitingSchedule(s: Sched, c: int, cpu: int, t: int, stack: int)
    requires Inv(s) && Enabled(s, Schedule(c)) && Exiting(s, cpu, t, stack) && !(c == cpu && Ready(s, cpu))
    ensures Exiting(Step(s, Schedule(c)), cpu, t, stack)
  {
    hide Pinned, Stacks, FirstFit, NewStack, Step;
    CurrentLive(s, cpu);
    if Ready(s, c) {
      var i :| NextFor(s, c, i);
      SchedulePicks(s, c, i);
    } else {
      ScheduleIdle(s, c);
    }
  }

  lemma {:induction false} ExitingRun(s: Sched, es: seq<Event>, cpu: int, t: int, stack: int)
    requires Inv(s) && Possible(s, es) && Exiting(s, cpu, t, stack) && !GivesWay(s, es, cpu)
    ensures Exiting(After(s, es), cpu, t, stack) && Inv(After(s, es))
    decreases |es|
  {
    hide Inv, Enabled, Step, Ready, Exiting;
    if es != [] {
      ExitingStep(s, es[0], cpu, t, stack);
      StepInv(s, es[0]);
      ExitingRun(Step(s, es[0]), es[1..], cpu, t, stack);
    }
  }

  /** `thread_exit` has its effect: the thread stays on its CPU until that has something else to
      run; then its block is free, no CPU or queue has it, and its stack is the next to be freed. */
  lemma ExitExits(s: Sched, cpu: int, es: seq<Event>)
    requires Inv(s) && Enabled(s, Exit(cpu)) && Tid(s, s.cur[cpu])
    requires Possible(Step(s, Exit(cpu)), es) && !GivesWay(Step(s, Exit(cpu)), es, cpu)
    ensures var t, s1 := s.cur[cpu], After(Step(s, Exit(cpu)), es);
            && Inv(s1) && cpu in s1.cur && s1.cur[cpu] == t
            && (Ready(s1, cpu) ==>
                  var s' := Step(s1, Schedule(cpu));
                  && t in s'.free && !Current(s', t) && t !in s'.run && t !in s'.pending
                  && s'.oldStack == s.td[t].stack)
  {
    hide Pinned, Stacks, FirstFit, NewStack;
    var t, s0 := s.cur[cpu], Step(s, Exit(cpu));
    StepInv(s, Exit(cpu));
    ExitingRun(s0, es, cpu, t, s.td[t].stack);
    var s1 := After(s0, es);
    if Ready(s1, cpu) {
      ExitSwitch(s1, cpu, t, s.td[t].stack);
    }
  }

  lemma ExitSwitch(s: Sched, cpu: int, t: int, stack: int)
    requires Inv(s) && Exiting(s, cpu, t, stack) && Ready(s, cpu)
    ensures var s' := Step(s, Schedule(cpu));
            && t in s'.free && !Current(s', t) && t !in s'.run && t !in s'.pending && s'.oldStack == stack
  {
    hide Pinned, Stacks, FirstFit, NewStack, Step;
    StepInv(s, Schedule(cpu));
    var i :| NextFor(s, cpu, i);
    SchedulePicks(s, cpu, i);
    assert Placed(Step(s, Schedule(cpu)), t);
  }

  // ---------------------------------------------------------------- waking

  lemma PendingStep(s: Sched, e: Event, t: int)
    requires Inv(s) && Enabled(s, e) && t in s.pending && e != WakeQueue(t)
    ensures t in Step(s, e).pending
  {
    hide Places, Pinned, Stacks, NewStack, FirstFit;
    InvRange(s);
    if e.Schedule? {
      CurrentLive(s, e.cpu);
    }
  }

  lemma {:induction false} PendingRun(s: Sched, es: seq<Event>, t: int)
    requires Inv(s) && Possible(s, es) && t in s.pending && WakeQueue(t) !in es
    ensures t in After(s, es).pending && Inv(After(s, es))
    decreases |es|
  {
    hide Inv, Enabled, Step;
    if es != [] {
      PendingStep(s, es[0], t);
      StepInv(s, es[0]);
      PendingRun(Step(s, es[0]), es[1..], t);
    }
  }

  /** The second half of a wakeup puts the thread behind those that are queued already. */
  lemma WakeQueues(s: Sched, t: int)
    requires Inv(s) && t in s.pending
    ensures var s' := Step(s, WakeQueue(t)); Inv(s') && s'.run == s.run + [t] && t !in s'.pending && Tid(s', t)
  {
    hide Pinned, Stacks;
    StepInv(s, WakeQueue(t));
  }

  /** A stopped thread that is woken runs again: its waker can queue it, whatever happens in
      between, and from then on it is picked before more schedules have passed on CPUs it may
      run on than there were threads in the queue. */
  lemma WakeRuns(s: Sched, t: int, es: seq<Event>, es': seq<Event>)
    requires Inv(s) && AtRest(s, t) && Possible(Step(s, WakeState(t)), es) && WakeQueue(t) !in es
    requires var s1 := After(Step(s, WakeState(t)), es);
             Inv(s1) && t in s1.pending ==> Possible(Step(s1, WakeQueue(t)), es')
    ensures var s1 := After(Step(s, WakeState(t)), es);
            && Inv(s1) && Enabled(s1, WakeQueue(t))
            && var s2 := Step(s1, WakeQueue(t));
            && Tid(s2, t) && (NeverPicked(s2, es', t) ==> Chances(s2, es', t) <= |s1.run|)
  {
    hide Places, Pinned, Stacks, NewStack, NeverPicked, Chances;
    StepInv(s, WakeState(t));
    PendingRun(Step(s, WakeState(t)), es, t);
    var s1 := After(Step(s, WakeState(t)), es);
    WakeQueues(s1, t);
    var s2 := Step(s1, WakeQueue(t));
    if NeverPicked(s2, es', t) {
      NoStarvation(s2, es', |s1.run|);
    }
  }

  /** A new thread runs: it is tied to no CPU and the same bound holds for it. */
  lemma NewRuns(s: Sched, stack: int, es: seq<Event>)
    requires Inv(s) && Enabled(s, NewThread(stack)) && Possible(Step(s, NewThread(stack)), es)
    ensures var s1, t := Step(s, NewThread(stack)), s.free[0];
            && Tid(s1, t) && s1.td[t] == Thread(Running, CPUNUM_ANY, stack)
            && (forall cpu :: cpu >= 0 ==> (MayRun(s1, cpu, t) <==> cpu == 0 || !s1.cpu0only))
            && (NeverPicked(s1, es, t) ==> Chances(s1, es, t) <= |s.run|)
  {
    hide Places, Pinned, Stacks, NewStack, NeverPicked, Chances;
    InvRange(s);
    StepInv(s, NewThread(stack));
    var s1, t := Step(s, NewThread(stack)), s.free[0];
    if NeverPicked(s1, es, t) {
      assert s1.run[|s.run|] == t;
      NoStarvation(s1, es, |s.run|);
    }
  }
}
