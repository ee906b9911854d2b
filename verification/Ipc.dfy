/** Processes and messages: each method is a region of the program that holds the process
    lock, or the message lock. */
module Ipc {
  import opened IpcModel

  class Processes {
    var process: seq<Proc>
    var names: seq<Entry>

    /** The calls each task is in, and the reference it has read last. */
    var task: map<int, Task>

    /** Bookkeeping that the program does not have: the next number of an incarnation, and the
        incarnations cleaned up. */
    var next: int
    ghost var cleaned: set<int>

    ghost function S(): Sys
      reads this
    {
      Sys(process, names, task, next, cleaned)
    }

    /** `process_init_global` */
    constructor (n: nat)
      ensures Inv(S()) && S() == Start(n)
    {
      var idle := seq(NUM_OF_MSGDSC, i => NO_DESC);
      process := seq(n + 1, p => Proc(p == 0, 1, 0, 0, false, idle, seq(NUM_OF_MSGDSC, i => false)));
      names, task, next, cleaned := [], map[], 1, {};
      new;
      StartInv(n);
      assert process == Start(n).proc;
    }

    method AddTask(t: int)
      requires Inv(S()) && Enabled(S(), NewTask(t))
      modifies this
      ensures Inv(S()) && S() == Step(old(S()), NewTask(t))
    {
      hide Inv;
      StepInv(S(), NewTask(t));
      task := task[t := Task([], NO_DESC)];
    }

    /** `process_new`, up to its call of `_msgopen_2`; -1 when all process ids are in use or there
        is no address space to be had, 0 when the program cannot be loaded. */
    method NewProcess(t: int, mem: bool, loads: bool) returns (pid: int)
      requires Inv(S()) && Enabled(S(), Event.NewProcess(t, mem, loads))
      modifies this
      ensures Inv(S()) && S() == Step(old(S()), Event.NewProcess(t, mem, loads))
      ensures pid == -1 <==> !mem || forall p :: 0 < p < old(|process|) ==> old(process)[p].valid
      ensures pid == -1 ==> S() == old(S())
      ensures pid != -1 ==> 0 <= pid < |process| && t in task && (pid > 0 <==> loads)
      ensures pid > 0 ==> task[t].look == Desc(pid, process[pid].gen, 0, process[pid].inc) && process[pid].valid
      ensures pid > 0 ==> !old(process)[pid].valid && forall p :: 0 < p < pid ==> old(process)[p].valid
    {
      hide Tables, Looks, Names, Frames, Counts, Incs, FirstFree;
      StepInv(S(), Event.NewProcess(t, mem, loads));
      KernelTable(S());
      pid := 1;
      while pid < |process| && process[pid].valid
        invariant 1 <= pid <= |process| && S() == old(S()) && FirstFree(process, 1) == FirstFree(process, pid)
        invariant forall p :: 0 < p < pid ==> process[p].valid
      {
        FirstFreeIs(process, pid);
        pid := pid + 1;
      }
      FirstFreeIs(process, pid);
      if pid == |process| || !mem {
        return -1;
      }
      var gen, inc := process[pid].gen + 1, next;
      var idle := seq(NUM_OF_MSGDSC, i => NO_DESC);
      process := process[pid := Proc(true, gen, inc, 0, false, idle, seq(NUM_OF_MSGDSC, i => false))];
      if !loads {
        process := process[pid := process[pid].(valid := false)];
        pid, inc := 0, 0;
      } else {
        next := next + 1;
      }
      assert seq(NUM_OF_MSGDSC, i => false)[0 := true] == seq(NUM_OF_MSGDSC, i => i == 0);
      process := process[pid := process[pid].(func := process[pid].func[0 := loads])];
      task := task[t := task[t].(look := Desc(pid, gen, 0, inc))];
      ghost var p := FirstFree(old(process), 1);
      if loads {
        assert process[pid] == Fresh(gen, inc);
        assert process == old(process)[pid := Fresh(gen, inc)];
      } else {
        assert process[p] == Fresh(gen, next).(valid := false, func := seq(NUM_OF_MSGDSC, i => false));
        assert process == NotLoaded(old(S()), p).proc;
      }
    }

    /** `_findname` */
    method FindIndex(name: string) returns (k: nat)
      ensures k == FindEntry(names, name, 0) <= |names|
      ensures (k < |names| ==> names[k].name == name) && forall j :: 0 <= j < k ==> names[j].name != name
    {
      hide FindEntry;
      k := 0;
      while k < |names|
        invariant 0 <= k <= |names| && FindEntry(names, name, 0) == FindEntry(names, name, k)
        invariant forall j :: 0 <= j < k ==> names[j].name != name
      {
        FindEntryIs(names, name, k);
        if names[k].name == name {
          return;
        }
        k := k + 1;
      }
      FindEntryIs(names, name, k);
    }

    /** `msg_findname` */
    method FindName(t: int, name: string) returns (found: bool)
      requires Inv(S()) && Enabled(S(), Event.FindName(t, name))
      modifies this
      ensures Inv(S()) && S() == Step(old(S()), Event.FindName(t, name))
      ensures found <==> exists k :: 0 <= k < |names| && names[k].name == name
      ensures found ==> exists k ::
        && 0 <= k < |names| && names[k].name == name && task == old(task)[t := old(task[t]).(look := names[k].to)]
      ensures !found ==> task == old(task)
    {
      hide Inv, FindEntry;
      StepInv(S(), Event.FindName(t, name));
      var k := FindIndex(name);
      found := k < |names|;
      if found {
        task := task[t := task[t].(look := names[k].to)];
      }
    }

    /** `_msgopen_2`: the reference just read goes into a free slot of `who`; -1 without one. */
    method OpenDesc(t: int, who: int) returns (r: int)
      requires Inv(S()) && Enabled(S(), Event.OpenDesc(t, who))
      modifies this
      ensures Inv(S()) && S() == Step(old(S()), Event.OpenDesc(t, who))
      ensures r == -1 <==> forall j :: 0 <= j < |old(process)[who].dsc| ==> !Empty(old(process)[who].dsc[j])
      ensures r != -1 ==>
        && 0 <= r < |old(process)[who].dsc| && Empty(old(process)[who].dsc[r]) && task == old(task)
        && (forall j :: 0 <= j < r ==> !Empty(old(process)[who].dsc[j]))
        && process == old(process)[who := old(process)[who].(dsc := old(process)[who].dsc[r := old(task)[t].look])]
      ensures r == -1 ==> S() == old(S())
    {
      hide Looks, Names, Frames, Counts, Incs, FirstEmpty;
      StepInv(S(), Event.OpenDesc(t, who));
      var i := FindSlot(who, NUM_OF_MSGDSC);
      if i == NUM_OF_MSGDSC {
        return -1;
      }
      process := process[who := process[who].(dsc := process[who].dsc[i := task[t].look])];
      r := i;
    }

    method FindSlot(p: int, n: nat) returns (i: nat)
      requires 0 <= p < |process| && n <= |process[p].dsc|
      ensures i == FirstEmpty(process[p].dsc, n, 0)
    {
      hide FirstEmpty;
      i := 0;
      while i < n
        invariant 0 <= i <= n && FirstEmpty(process[p].dsc, n, 0) == FirstEmpty(process[p].dsc, n, i)
      {
        FirstEmptyIs(process[p].dsc, n, i);
        if process[p].dsc[i].pid == 0 && process[p].dsc[i].gen == 0 {
          return;
        }
        i := i + 1;
      }
      FirstEmptyIs(process[p].dsc, n, i);
    }

    /** `_msgregister` with a name, and `msg_register` within it */
    method Register(t: int, who: int, name: string) returns (r: int)
      requires Inv(S()) && Enabled(S(), Event.Register(t, who, name))
      modifies this
      ensures Inv(S()) && S() == Step(old(S()), Event.Register(t, who, name))
      ensures r == -1 <==>
        || (forall j :: 0 <= j < |old(process)[who].func| ==> old(process)[who].func[j])
        || (exists k :: 0 <= k < |old(names)| && old(names)[k].name == name)
      ensures r == -1 ==> S() == old(S())
      ensures r != -1 ==>
        && 0 <= r < |old(process)[who].func| && !old(process)[who].func[r]
        && (forall j :: 0 <= j < r ==> old(process)[who].func[j])
        && process == old(process)[who := old(process)[who].(func := old(process)[who].func[r := true])]
        && names == old(names) + [Entry(Truncated(name), Desc(who, process[who].gen, r, process[who].inc))]
    {
      hide Looks, Names, Frames, Counts, Incs, FirstFunc, FindEntry;
      StepInv(S(), Event.Register(t, who, name));
      var i := FindFunc(who);
      if i == NUM_OF_MSGDSC {
        return -1;
      }
      var k := FindIndex(name);
      if k < |names| {
        return -1;
      }
      var gen, inc := process[who].gen, process[who].inc;
      process := process[who := process[who].(func := process[who].func[i := true])];
      names := names + [Entry(Truncated(name), Desc(who, gen, i, inc))];
      r := i;
    }

    /** `_msgregister` without a name */
    method RegisterUnnamed(t: int, who: int) returns (r: int)
      requires Inv(S()) && Enabled(S(), Event.RegisterUnnamed(t, who))
      modifies this
      ensures Inv(S()) && S() == Step(old(S()), Event.RegisterUnnamed(t, who))
      ensures r == -1 ==> S() == old(S())
      ensures r == -1 <==> forall j :: 0 <= j < |old(process)[who].func| ==> old(process)[who].func[j]
      ensures r != -1 ==>
        && 0 <= r < |old(process)[who].func| && !old(process)[who].func[r] && names == old(names)
        && (forall j :: 0 <= j < r ==> old(process)[who].func[j])
        && process == old(process)[who := old(process)[who].(func := old(process)[who].func[r := true])]
    {
      hide Looks, Names, Frames, Counts, Incs, FirstFunc;
      StepInv(S(), Event.RegisterUnnamed(t, who));
      var i := FindFunc(who);
      if i == NUM_OF_MSGDSC {
        return -1;
      }
      process := process[who := process[who].(func := process[who].func[i := true])];
      r := i;
    }

    /** The first slot without a function. */
    method FindFunc(who: int) returns (i: nat)
      requires 0 <= who < |process| && |process[who].func| == NUM_OF_MSGDSC
      ensures i == FirstFunc(process[who].func, 0)
    {
      hide FirstFunc;
      i := 0;
      while i < NUM_OF_MSGDSC && process[who].func[i]
        invariant 0 <= i <= NUM_OF_MSGDSC && FirstFunc(process[who].func, 0) == FirstFunc(process[who].func, i)
      {
        FirstFuncIs(process[who].func, i);
        i := i + 1;
      }
      FirstFuncIs(process[who].func, i);
    }

    /** `_msgclose` */
    method CloseDesc(t: int, who: int, i: int)
      requires Inv(S()) && Enabled(S(), Event.CloseDesc(t, who, i))
      modifies this
      ensures Inv(S()) && S() == Step(old(S()), Event.CloseDesc(t, who, i))
      ensures 0 <= i < |process[who].dsc| && Empty(process[who].dsc[i])
        && process[who].dsc == old(process)[who].dsc[i := process[who].dsc[i]]
    {
      hide Looks, Names, Frames, Counts, Incs;
      StepInv(S(), Event.CloseDesc(t, who, i));
      var d := process[who].dsc[i];
      process := process[who := process[who].(dsc := process[who].dsc[i := d.(pid := 0, gen := 0)])];
    }

    /** `_msgsenddesc` */
    method SendDesc(t: int, who: int, to: int, i: int, mine: bool) returns (r: int)
      requires Inv(S()) && Enabled(S(), Event.SendDesc(t, who, to, i, mine))
      modifies this
      ensures Inv(S()) && S() == Step(old(S()), Event.SendDesc(t, who, to, i, mine))
      ensures r == -1 ==> S() == old(S())
      ensures var d := old(process)[who].dsc[to];
              && 0 <= d.pid < |process|
              && (r == -1 <==>
                    || d.pid == 0 || d.dsc != 0 || !Live(old(process), d)
                    || forall j :: 0 <= j < NUM_OF_MSGDSCRECV ==> !Empty(old(process)[d.pid].dsc[j]))
      ensures r != -1 ==>
        && var d := old(process)[who].dsc[to];
        && 0 < d.pid < |process| && old(process)[d.pid].valid && old(process)[d.pid].gen == d.gen
        && 0 <= r < |process[d.pid].dsc| && Empty(old(process)[d.pid].dsc[r])
        && (forall j :: 0 <= j < r ==> !Empty(old(process)[d.pid].dsc[j]))
        && process[d.pid].dsc[r] == if mine then Desc(who, process[who].gen, i, process[who].inc)
          else old(process)[who].dsc[i]
    {
      hide Looks, Names, Frames, Counts, Incs, FirstEmpty;
      StepInv(S(), Event.SendDesc(t, who, to, i, mine));
      var d := process[who].dsc[to];
      assert RefOk(process, d);
      if !process[d.pid].valid || process[d.pid].gen != d.gen || d.pid == 0 || d.dsc != 0 {
        return -1;
      }
      var j := FindSlot(d.pid, NUM_OF_MSGDSCRECV);
      if j == NUM_OF_MSGDSCRECV {
        return -1;
      }
      var m := process[who].dsc[i];
      if mine {
        m := Desc(who, process[who].gen, i, process[who].inc);
      }
      process := process[d.pid := process[d.pid].(dsc := process[d.pid].dsc[j := m])];
      r := j;
    }

    /** The first lock region of `_msgsendint` and `_msgsendbuf` */
    method FetchDesc(t: int, who: int, i: int)
      requires Inv(S()) && Enabled(S(), Event.FetchDesc(t, who, i))
      modifies this
      ensures Inv(S()) && S() == Step(old(S()), Event.FetchDesc(t, who, i))
      ensures 0 <= i < |process[who].dsc| && task == old(task)[t := old(task[t]).(look := process[who].dsc[i])]
        && process == old(process)
    {
      hide Looks, Names, Frames, Counts, Incs;
      StepInv(S(), Event.FetchDesc(t, who, i));
      task := task[t := task[t].(look := process[who].dsc[i])];
    }

    /** `call_msgfunc1` up to the start of the call.  `mapped` tells whether its buffers and
        its stack could be mapped; a failure to map finds nothing to clean up. */
    method Enter(t: int, mapped: bool) returns (called: bool, cleanupDue: bool)
      requires Inv(S()) && Enabled(S(), Event.Enter(t, mapped))
      modifies this
      ensures Inv(S()) && S() == Step(old(S()), Event.Enter(t, mapped))
      ensures (called <==> Entered(old(S()), t, mapped)) && !cleanupDue
      ensures called ==>
        && var d := old(task[t]).look;
        && 0 < d.pid < |process| && Live(old(process), d) && process[d.pid].running == old(process)[d.pid].running + 1
        && task == old(task)[t := old(task[t]).(frames := old(task[t]).frames + [d])]
    {
      hide Names, Frames, Incs, Started;
      StepInv(S(), Event.Enter(t, mapped));
      var d := task[t].look;
      assert RefOk(process, d);
      called, cleanupDue := false, false;
      if !process[d.pid].valid || process[d.pid].gen != d.gen || !process[d.pid].func[d.dsc] {
        return;
      }
      if d.pid == 0 {
        return;
      }
      if !mapped {
        cleanupDue := process[d.pid].running == 0 && process[d.pid].exiting;
        return;
      }
      process := process[d.pid := process[d.pid].(running := process[d.pid].running + 1)];
      task := task[t := task[t].(frames := task[t].frames + [d])];
      called := true;
    }

    /** `call_msgfunc1` from the end of the call on */
    method Leave(t: int)
      requires Inv(S()) && Enabled(S(), Event.Leave(t))
      modifies this
      ensures Inv(S()) && S() == Step(old(S()), Event.Leave(t))
      ensures var f := old(task[t]).frames;
              && task == old(task)[t := old(task[t]).(frames := f[..|f| - 1])]
              && var p := f[|f| - 1].pid;
              && 0 < p < |process| && process[p].running == old(process)[p].running - 1
              && (process[p].valid <==> process[p].running > 0 || !old(process)[p].exiting)
              && (!process[p].valid ==> forall k :: 0 <= k < |names| ==> names[k].to.pid != p)
    {
      hide Tables, Looks, Names, Frames, Counts, Incs;
      StepInv(S(), Event.Leave(t));
      LastFrame(S(), t);
      var f := task[t].frames;
      var pid := f[|f| - 1].pid;
      process := process[pid := process[pid].(running := process[pid].running - 1)];
      task := task[t := task[t].(frames := f[..|f| - 1])];
      if process[pid].running == 0 && process[pid].exiting {
        WithoutIs(names, pid);
        Cleanup(pid);
      } else {
        ExitingBusy(S(), pid);
      }
    }

    /** `cleanup` */
    method Cleanup(pid: int)
      requires 0 <= pid < |process| && process[pid].valid && process[pid].running == 0
      modifies this
      ensures S() == Cleaned(old(S()), pid)
    {
      process := process[pid := process[pid].(gen := process[pid].gen + 1)];
      UnregisterAll(pid);
      cleaned := cleaned + {process[pid].inc};
      process := process[pid := process[pid].(valid := false)];
    }

    /** `msg_unregisterall` */
    method UnregisterAll(pid: int)
      modifies this`names
      ensures names == Without(old(names), pid)
    {
      hide Without;
      var i := 0;
      while i < |names|
        invariant 0 <= i <= |names| && Without(names, pid) == Without(old(names), pid)
        invariant forall j :: 0 <= j < i ==> names[j].to.pid != pid
        decreases |names|, |names| - i
      {
        if names[i].to.pid == pid {
          WithoutOne(names, pid, i);
          names := names[..i] + names[i + 1..];
          i := 0;
        } else {
          i := i + 1;
        }
      }
      WithoutNone(names, pid);
    }

    /** `process_kill` and the exit system call */
    method SetExit(t: int)
      requires Inv(S()) && Enabled(S(), Event.SetExit(t))
      modifies this
      ensures Inv(S()) && S() == Step(old(S()), Event.SetExit(t))
      ensures var f := old(task[t]).frames;
              0 < f[|f| - 1].pid < |process| && process[f[|f| - 1].pid].exiting && task == old(task)
    {
      hide Tables, Looks, Names, Frames, Counts, Incs;
      StepInv(S(), Event.SetExit(t));
      LastFrame(S(), t);
      var f := task[t].frames;
      var pid := f[|f| - 1].pid;
      process := process[pid := process[pid].(exiting := true)];
    }
  }

  lemma ExitingBusy(s: Sys, p: int)
    requires Inv(s) && 0 <= p < |s.proc| && s.proc[p].valid
    ensures s.proc[p].exiting ==> s.proc[p].running > 0
  {
  }

  lemma FirstFreeIs(proc: seq<Proc>, i: nat)
    requires i <= |proc|
    ensures FirstFree(proc, i) == if i == |proc| || !proc[i].valid then i else FirstFree(proc, i + 1)
  {
  }

  lemma FindEntryIs(names: seq<Entry>, name: string, i: nat)
    requires i <= |names|
    ensures FindEntry(names, name, i) == if i == |names| || names[i].name == name then i
      else FindEntry(names, name, i + 1)
  {
  }

  lemma FirstEmptyIs(dsc: seq<Desc>, n: nat, i: nat)
    requires i <= n <= |dsc|
    ensures FirstEmpty(dsc, n, i) == if i == n || Empty(dsc[i]) then i else FirstEmpty(dsc, n, i + 1)
  {
  }

  lemma FirstFuncIs(func: seq<bool>, i: nat)
    requires i <= |func|
    ensures FirstFunc(func, i) == if i == |func| || !func[i] then i else FirstFunc(func, i + 1)
  {
  }

  lemma {:induction false} WithoutOne(names: seq<Entry>, pid: int, i: nat)
    requires i < |names| && names[i].to.pid == pid
    ensures Without(names[..i] + names[i + 1..], pid) == Without(names, pid)
    decreases |names|
  {
    var l := names[..i] + names[i + 1..];
    if i == 0 {
      assert l == names[1..];
    } else {
      assert l[1..] == names[1..][..i - 1] + names[1..][i..];
      assert l[0] == names[0];
      WithoutOne(names[1..], pid, i - 1);
    }
  }

  lemma {:induction false} WithoutNone(names: seq<Entry>, pid: int)
    requires forall j :: 0 <= j < |names| ==> names[j].to.pid != pid
    ensures Without(names, pid) == names
  {
    if names != [] {
      WithoutNone(names[1..], pid);
    }
  }
}
