/** The thread scheduler: each method is a region of the program that holds the thread lock. */
module Scheduler {
  import opened List
  import opened SchedulerModel
  import opened SchedulerLaws

  class Threads {
    var td: seq<Thread>
    var tdFree: seq<int>
    var tdRunnable: seq<int>
    var oldStack: int
    var cpu0only: bool

    /** The thread that each CPU is running. */
    var cur: map<int, int>

    ghost var pending: set<int>
    ghost var freed: set<int>

    ghost function S(): Sched
      reads this
    {
      Sched(td, tdFree, tdRunnable, cur, pending, oldStack, cpu0only, freed)
    }

    /** `thread_init_global` */
    constructor (n: nat)
      ensures Inv(S()) && S() == Start(n)
    {
      td := seq(n, i => Thread(Exited, CPUNUM_ANY, 0));
      tdFree := seq(n, i => i);
      tdRunnable, oldStack, cpu0only, cur := [], 0, false, map[];
      pending, freed := {}, {};
      new;
      StartInv(n);
      assert td == Start(n).td && tdFree == Start(n).free;
    }

    /** The switch of `schedule` from the current thread of `cpu` to `d`. */
    method SwitchTo(cpu: int, d: int) returns (badState: bool)
      requires Inv(S()) && cpu in cur && d in tdRunnable
      modifies this
      ensures !badState && Tid(old(S()), old(cur[cpu])) && S() == Switched(old(S()), cpu, d)
    {
      hide Places, Pinned, Stacks, Del;
      CurrentLive(S(), cpu);
      badState := false;
      tdRunnable := Del(tdRunnable, d);
      var oldtid := cur[cpu];
      cur := cur[cpu := d];
      match td[oldtid].state {
        case Exited =>
          oldStack := td[oldtid].stack;
          tdFree := tdFree + [oldtid];
        case Running =>
          tdRunnable := tdRunnable + [oldtid];
        case WillStop =>
          td := td[oldtid := td[oldtid].(state := Stopped)];
        case Stopped =>
          badState := true;
      }
    }

    /** `schedule` */
    method Schedule(cpu: int) returns (badState: bool)
      requires Inv(S()) && Enabled(S(), Event.Schedule(cpu))
      modifies this
      ensures !badState && Inv(S()) && S() == Step(old(S()), Event.Schedule(cpu))
      ensures Tid(old(S()), old(cur[cpu])) && Scheduled(old(S()), S(), cpu)
    {
      hide Inv, Places, Pinned, Stacks, Switched, FirstFit, Scheduled;
      ScheduleIs(S(), cpu);
      StepInv(S(), Event.Schedule(cpu));
      FreeOldInv(S());
      InvRange(S());
      if oldStack != 0 {
        freed := freed + {oldStack};
        oldStack := 0;
      }
      ghost var s := S();
      assert s == FreeOld(old(S()));
      var any := CPUNUM_ANY;
      if cpu0only && cpu != 0 {
        any := cpu;
      }
      var i := 0;
      while i < |tdRunnable|
        invariant 0 <= i <= |tdRunnable| && S() == s && FirstFit(s, cpu, 0) == FirstFit(s, cpu, i)
      {
        var d := tdRunnable[i];
        FirstFitIs(s, cpu, i);
        if td[d].cpunum == any || td[d].cpunum == cpu {
          assert d in tdRunnable;
          badState := SwitchTo(cpu, d);
          return;
        }
        i := i + 1;
      }
      FirstFitIs(s, cpu, i);
      badState := false;
    }

    /** `thread_new0` */
    method NewThread(stack: int) returns (t: int)
      requires Inv(S()) && Enabled(S(), Event.NewThread(stack))
      modifies this
      ensures Inv(S()) && S() == Step(old(S()), Event.NewThread(stack))
      ensures t in old(tdFree) && Tid(S(), t) && td == old(td)[t := Thread(Running, CPUNUM_ANY, stack)]
      ensures tdRunnable == old(tdRunnable) + [t] && cur == old(cur) && old(tdFree) == [t] + tdFree
    {
      hide Places, Pinned, Stacks;
      StepInv(S(), Event.NewThread(stack));
      InvRange(S());
      t := tdFree[0];
      tdFree := tdFree[1..];
      td := td[t := Thread(Running, CPUNUM_ANY, stack)];
      tdRunnable := tdRunnable + [t];
      freed := freed - {stack};
    }

    /** `thread_init_pcpu` */
    method InitCpu(cpu: int, stack: int)
      requires Inv(S()) && Enabled(S(), Event.InitCpu(cpu, stack))
      modifies this
      ensures Inv(S()) && S() == Step(old(S()), Event.InitCpu(cpu, stack))
      ensures cpu in cur && cur[cpu] in old(tdFree) && Tid(S(), cur[cpu]) && cur == old(cur)[cpu := cur[cpu]]
      ensures td == old(td)[cur[cpu] := Thread(Running, cpu, stack)] && tdRunnable == old(tdRunnable)
    {
      hide Places, Pinned, Stacks;
      StepInv(S(), Event.InitCpu(cpu, stack));
      InvRange(S());
      var t := tdFree[0];
      tdFree := tdFree[1..];
      td := td[t := Thread(Running, cpu, stack)];
      cur := cur[cpu := t];
      freed := freed - {stack};
    }

    /** `thread_set_state` */
    method SetState(t: int, state: TState) returns (oldState: TState)
      requires Tid(S(), t)
      modifies this`td
      ensures oldState == old(td[t].state) && S() == SchedulerModel.SetState(old(S()), t, state)
    {
      oldState := td[t].state;
      td := td[t := td[t].(state := state)];
    }

    /** `thread_will_stop` */
    method WillStop(cpu: int) returns (badState: bool)
      requires Inv(S()) && Enabled(S(), Stop(cpu))
      modifies this
      ensures !badState && Inv(S()) && S() == Step(old(S()), Stop(cpu))
      ensures Stopping(S(), cpu, old(cur[cpu])) && tdRunnable == old(tdRunnable) && cur == old(cur)
    {
      hide Places, Pinned, Stacks;
      StepInv(S(), Stop(cpu));
      CurrentLive(S(), cpu);
      var o := SetState(cur[cpu], TState.WillStop);
      badState := o == Stopped || o == Exited;
    }

    /** `thread_exit`, up to its call of `schedule` */
    method Exit(cpu: int) returns (badState: bool)
      requires Inv(S()) && Enabled(S(), Event.Exit(cpu))
      modifies this
      ensures !badState && Inv(S()) && S() == Step(old(S()), Event.Exit(cpu))
      ensures Tid(old(S()), old(cur[cpu])) && Exiting(S(), cpu, old(cur[cpu]), old(td[cur[cpu]].stack))
    {
      hide Places, Pinned, Stacks;
      StepInv(S(), Event.Exit(cpu));
      CurrentLive(S(), cpu);
      var o := SetState(cur[cpu], Exited);
      badState := o == Stopped;
    }

    /** The first lock region of `thread_wakeup`.  When it finds the thread stopped, its caller
        owes the second one. */
    method WakeState(t: int) returns (owed: bool, badState: bool)
      requires Inv(S()) && Enabled(S(), Event.WakeState(t))
      modifies this
      ensures !badState && Inv(S()) && S() == Step(old(S()), Event.WakeState(t))
      ensures td[t].state == Running && (owed <==> old(td[t].state) == Stopped)
      ensures pending == if owed then old(pending) + {t} else old(pending)
    {
      hide Pinned, Stacks;
      StepInv(S(), Event.WakeState(t));
      assert Placed(S(), t);
      var o := SetState(t, Running);
      badState := o == Exited;
      owed := o == Stopped;
      pending := if owed then pending + {t} else pending;
    }

    /** The second lock region of `thread_wakeup`. */
    method WakeQueue(t: int)
      requires Inv(S()) && Enabled(S(), Event.WakeQueue(t))
      modifies this
      ensures Inv(S()) && S() == Step(old(S()), Event.WakeQueue(t))
      ensures tdRunnable == old(tdRunnable) + [t] && t !in pending && td == old(td)
    {
      hide Places, Pinned, Stacks;
      StepInv(S(), Event.WakeQueue(t));
      tdRunnable := tdRunnable + [t];
      pending := pending - {t};
    }

    /** `thread_set_cpu0only` */
    method SetCpu0Only(on: bool)
      requires Inv(S())
      modifies this
      ensures Inv(S()) && S() == Step(old(S()), Cpu0Only(on)) && cpu0only == on
    {
      hide Places, Pinned, Stacks;
      StepInv(S(), Cpu0Only(on));
      cpu0only := on;
    }
  }

  lemma FirstFitIs(s: Sched, cpu: int, i: nat)
    requires InRange(s) && i <= |s.run|
    ensures FirstFit(s, cpu, i) == if i == |s.run| || Fits(s, cpu, s.run[i]) then i else FirstFit(s, cpu, i + 1)
  {
  }
}
