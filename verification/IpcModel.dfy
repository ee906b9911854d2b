/** Processes and messages as a state machine: each region that holds the process lock or the
    message lock is one event, so runs of events are interleavings of the callers. */
module IpcModel {

  const NUM_OF_MSGDSC: nat := 32
  const NUM_OF_MSGDSCRECV: nat := 8
  const NAME_MAX: nat := 15

  /** A reference to slot `dsc` of a process.  `inc` is the incarnation of the process that
      the reference was made for; the program does not have this field. */
  datatype Desc = Desc(pid: int, gen: int, dsc: int, inc: int)

  const NO_DESC: Desc := Desc(0, 0, 0, 0)

  datatype Proc = Proc(valid: bool, gen: int, inc: int, running: int, exiting: bool, dsc: seq<Desc>, func: seq<bool>)

  /** A flow of control: the calls it is in, innermost last, and the reference it has read in
      one lock region to use in the next. */
  datatype Task = Task(frames: seq<Desc>, look: Desc)

  datatype Entry = Entry(name: string, to: Desc)

  /** Incarnations are numbered from 0, the kernel; `cleaned` are those that have been cleaned
      up. */
  datatype Sys = Sys(proc: seq<Proc>, names: seq<Entry>, task: map<int, Task>, next: int, cleaned: set<int>)

  datatype Event =
    | NewTask(t: int)
    | NewProcess(t: int, mem: bool, loads: bool)
    | FindName(t: int, name: string)
    | OpenDesc(t: int, who: int)
    | Register(t: int, who: int, name: string)
    | RegisterUnnamed(t: int, who: int)
    | CloseDesc(t: int, who: int, i: int)
    | SendDesc(t: int, who: int, to: int, i: int, mine: bool)
    | FetchDesc(t: int, who: int, i: int)
    | Enter(t: int, mapped: bool)
    | Leave(t: int)
    | SetExit(t: int)

  predicate Empty(d: Desc) {
    d.pid == 0 && d.gen == 0
  }

  // ---------------------------------------------------------------- the invariant

  /** A reference is not ahead of its process, unless that is the kernel, whose generation never
      changes; and if it is current it means the incarnation it was made for. */
  ghost predicate RefOk(proc: seq<Proc>, d: Desc) {
    && 0 <= d.pid < |proc| && 0 <= d.dsc < NUM_OF_MSGDSC && (d.pid == 0 || d.gen <= proc[d.pid].gen)
    && (proc[d.pid].valid && d.gen == proc[d.pid].gen ==> d.inc == proc[d.pid].inc)
  }

  ghost predicate Live(proc: seq<Proc>, d: Desc) {
    && 0 <= d.pid < |proc| && 0 <= d.dsc < NUM_OF_MSGDSC && proc[d.pid].valid
    && d.gen == proc[d.pid].gen && d.inc == proc[d.pid].inc
  }

  ghost predicate Tables(proc: seq<Proc>) {
    && (forall p :: 0 <= p < |proc| ==> |proc[p].dsc| == |proc[p].func| == NUM_OF_MSGDSC)
    && (forall p, i :: 0 <= p < |proc| && 0 <= i < NUM_OF_MSGDSC ==> RefOk(proc, proc[p].dsc[i]))
  }

  ghost predicate Looks(proc: seq<Proc>, task: map<int, Task>) {
    forall t :: t in task ==> RefOk(proc, task[t].look)
  }

  /** Every registered name denotes a live incarnation. */
  ghost predicate Names(proc: seq<Proc>, names: seq<Entry>) {
    forall k :: 0 <= k < |names| ==> Live(proc, names[k].to)
  }

  /** Whatever is being called is alive, and still the incarnation that was called. */
  ghost predicate Frames(proc: seq<Proc>, task: map<int, Task>) {
    forall t, i :: t in task && 0 <= i < |task[t].frames| ==> task[t].frames[i].pid > 0 && Live(proc, task[t].frames[i])
  }

  ghost function FramesOf(task: map<int, Task>, p: int): set<(int, int)> {
    set t, i | t in task && 0 <= i < |task[t].frames| && task[t].frames[i].pid == p :: (t, i)
  }

  /** `running` counts the calls in progress, and an exiting process has some. */
  ghost predicate Counts(proc: seq<Proc>, task: map<int, Task>) {
    && (forall p :: 0 <= p < |proc| && proc[p].valid ==> proc[p].running == |FramesOf(task, p)|)
    && (forall p :: 0 <= p < |proc| && proc[p].valid && proc[p].exiting ==> proc[p].running > 0)
  }

  /** Incarnations are never confused nor cleaned up twice. */
  ghost predicate Incs(proc: seq<Proc>, next: int, cleaned: set<int>) {
    && (forall p :: 0 <= p < |proc| && proc[p].valid ==> proc[p].inc < next && proc[p].inc !in cleaned)
    && (forall p, q :: 0 <= p < q < |proc| && proc[p].valid && proc[q].valid ==> proc[p].inc != proc[q].inc)
    && (forall x :: x in cleaned ==> x < next)
  }

  /** The kernel is process 0, in its first generation for good. */
  ghost predicate Kernel(proc: seq<Proc>) {
    |proc| > 0 && proc[0].valid && proc[0].gen == 1 && !proc[0].exiting && proc[0].inc == 0
  }

  ghost predicate Started(proc: seq<Proc>) {
    forall p :: 0 <= p < |proc| ==> proc[p].gen >= 1
  }

  ghost predicate Inv(s: Sys) {
    && Kernel(s.proc) && Started(s.proc) && Tables(s.proc) && Looks(s.proc, s.task) && Names(s.proc, s.names)
    && Frames(s.proc, s.task) && Counts(s.proc, s.task) && Incs(s.proc, s.next, s.cleaned)
  }

  // ---------------------------------------------------------------- the events

  /** The process that a task is in. */
  ghost function Pid(s: Sys, t: int): int
    requires t in s.task
  {
    var f := s.task[t].frames;
    if f == [] then 0 else f[|f| - 1].pid
  }

  /** Kernel code acts as process 0, a system call as the process the task is in. */
  ghost predicate Acts(s: Sys, t: int, who: int) {
    t in s.task && 0 <= who < |s.proc| && (who == 0 || who == Pid(s, t))
  }

  ghost predicate Enabled(s: Sys, e: Event) {
    match e
    case NewTask(t) => t !in s.task
    case NewProcess(t, _, _) => t in s.task
    case FindName(t, _) => t in s.task
    case OpenDesc(t, who) => Acts(s, t, who)
    case Register(t, who, _) => Acts(s, t, who)
    case RegisterUnnamed(t, who) => Acts(s, t, who)
    case CloseDesc(t, who, i) => Acts(s, t, who) && 0 <= i < NUM_OF_MSGDSC
    case SendDesc(t, who, to, i, _) => Acts(s, t, who) && 0 <= to < NUM_OF_MSGDSC && 0 <= i < NUM_OF_MSGDSC
    case FetchDesc(t, who, i) => Acts(s, t, who) && 0 <= i < NUM_OF_MSGDSC
    case Enter(t, _) => t in s.task
    case Leave(t) => t in s.task && s.task[t].frames != []
    case SetExit(t) => t in s.task && s.task[t].frames != []
  }

  function FirstFree(proc: seq<Proc>, i: nat): (r: nat)
    requires i <= |proc|
    ensures i <= r <= |proc| && (r < |proc| ==> !proc[r].valid) && forall j :: i <= j < r ==> proc[j].valid
    decreases |proc| - i
  {
    if i == |proc| || !proc[i].valid then i else FirstFree(proc, i + 1)
  }

  function FirstEmpty(dsc: seq<Desc>, n: nat, i: nat): (r: nat)
    requires i <= n <= |dsc|
    ensures i <= r <= n && (r < n ==> Empty(dsc[r])) && forall j :: i <= j < r ==> !Empty(dsc[j])
    decreases n - i
  {
    if i == n || Empty(dsc[i]) then i else FirstEmpty(dsc, n, i + 1)
  }

  function FirstFunc(func: seq<bool>, i: nat): (r: nat)
    requires i <= |func|
    ensures i <= r <= |func| && (r < |func| ==> !func[r]) && forall j :: i <= j < r ==> func[j]
    decreases |func| - i
  {
    if i == |func| || !func[i] then i else FirstFunc(func, i + 1)
  }

  function FindEntry(names: seq<Entry>, name: string, i: nat): (r: nat)
    requires i <= |names|
    ensures i <= r <= |names| && (r < |names| ==> names[r].name == name)
      && forall j :: i <= j < r ==> names[j].name != name
    decreases |names| - i
  {
    if i == |names| || names[i].name == name then i else FindEntry(names, name, i + 1)
  }

  function Truncated(name: string): string {
    if |name| > NAME_MAX then name[..NAME_MAX] else name
  }

  /** `msg_unregisterall` */
  function Without(names: seq<Entry>, pid: int): seq<Entry> {
    if names == [] then [] else (if names[0].to.pid == pid then [] else [names[0]]) + Without(names[1..], pid)
  }

  ghost function SetLook(s: Sys, t: int, d: Desc): Sys
    requires t in s.task
  {
    s.(task := s.task[t := s.task[t].(look := d)])
  }

  ghost function SetProc(s: Sys, p: int, x: Proc): Sys
    requires 0 <= p < |s.proc|
  {
    s.(proc := s.proc[p := x])
  }

  ghost function Fresh(gen: int, inc: int): Proc {
    Proc(true, gen, inc, 0, false, seq(NUM_OF_MSGDSC, i => NO_DESC), seq(NUM_OF_MSGDSC, i => i == 0))
  }

  /** A process that could not be loaded leaves its generation behind, and takes the function of
      slot 0 from the kernel. */
  ghost function NotLoaded(s: Sys, p: int): Sys
    requires 0 < p < |s.proc| && |s.proc[0].func| > 0
  {
    var x := Fresh(s.proc[p].gen + 1, s.next).(valid := false, func := seq(NUM_OF_MSGDSC, i => false));
    SetProc(SetProc(s, p, x), 0, s.proc[0].(func := s.proc[0].func[0 := false]))
  }

  /** `cleanup` */
  ghost function Cleaned(s: Sys, p: int): Sys
    requires 0 <= p < |s.proc|
  {
    s.(proc := s.proc[p := s.proc[p].(gen := s.proc[p].gen + 1, valid := false)], names := Without(s.names, p),
      cleaned := s.cleaned + {s.proc[p].inc})
  }

  ghost function Left(s: Sys, t: int): Sys
    requires t in s.task && s.task[t].frames != [] && 0 <= Pid(s, t) < |s.proc|
  {
    var p, s1 := Pid(s, t), Returned(s, t);
    if s1.proc[p].running == 0 && s1.proc[p].exiting then Cleaned(s1, p) else s1
  }

  /** The state between the end of a call and the test for cleaning up. */
  ghost function Returned(s: Sys, t: int): Sys
    requires t in s.task && s.task[t].frames != [] && 0 <= Pid(s, t) < |s.proc|
  {
    var f, p := s.task[t].frames, Pid(s, t);
    SetProc(s, p, s.proc[p].(running := s.proc[p].running - 1)).(task :=
      s.task[t := s.task[t].(frames := f[..|f| - 1])])
  }

  ghost function Step(s: Sys, e: Event): Sys
    requires Inv(s) && Enabled(s, e)
  {
    match e
    case NewTask(t) => s.(task := s.task[t := Task([], NO_DESC)])
    case NewProcess(t, mem, loads) =>
      var p := FirstFree(s.proc, 1);
      if p == |s.proc| || !mem then s
      else
        var g := s.proc[p].gen + 1;
        if loads then SetLook(SetProc(s, p, Fresh(g, s.next)).(next := s.next + 1), t, Desc(p, g, 0, s.next))
        else SetLook(NotLoaded(s, p), t, Desc(0, g, 0, 0))
    case FindName(t, name) =>
      var k := FindEntry(s.names, name, 0);
      if k == |s.names| then s else SetLook(s, t, s.names[k].to)
    case OpenDesc(t, who) =>
      var i := FirstEmpty(s.proc[who].dsc, NUM_OF_MSGDSC, 0);
      if i == NUM_OF_MSGDSC then s else SetProc(s, who, s.proc[who].(dsc := s.proc[who].dsc[i := s.task[t].look]))
    case Register(t, who, name) =>
      var i := FirstFunc(s.proc[who].func, 0);
      if i == NUM_OF_MSGDSC || FindEntry(s.names, name, 0) < |s.names| then s
      else
        SetProc(s, who, s.proc[who].(func := s.proc[who].func[i := true]))
          .(names := s.names + [Entry(Truncated(name), Desc(who, s.proc[who].gen, i, s.proc[who].inc))])
    case RegisterUnnamed(t, who) =>
      var i := FirstFunc(s.proc[who].func, 0);
      if i == NUM_OF_MSGDSC then s else SetProc(s, who, s.proc[who].(func := s.proc[who].func[i := true]))
    case CloseDesc(t, who, i) =>
      SetProc(s, who, s.proc[who].(dsc := s.proc[who].dsc[i := s.proc[who].dsc[i].(pid := 0, gen := 0)]))
    case SendDesc(t, who, to, i, mine) =>
      var d := s.proc[who].dsc[to];
      if !s.proc[d.pid].valid || s.proc[d.pid].gen != d.gen || d.pid == 0 || d.dsc != 0 then s
      else
        var j := FirstEmpty(s.proc[d.pid].dsc, NUM_OF_MSGDSCRECV, 0);
        if j == NUM_OF_MSGDSCRECV then s
        else
          SetProc(s, d.pid, s.proc[d.pid].(dsc :=
            s.proc[d.pid].dsc[j := if mine then Desc(who, s.proc[who].gen, i, s.proc[who].inc)
            else s.proc[who].dsc[i]]))
    case FetchDesc(t, who, i) => SetLook(s, t, s.proc[who].dsc[i])
    case Enter(t, mapped) =>
      var d := s.task[t].look;
      if Entered(s, t, mapped) then
        SetProc(s, d.pid, s.proc[d.pid].(running := s.proc[d.pid].running + 1)).(task :=
          s.task[t := s.task[t].(frames := s.task[t].frames + [d])])
      else s
    case Leave(t) => LastFrame(s, t); Left(s, t)
    case SetExit(t) => LastFrame(s, t); SetProc(s, Pid(s, t), s.proc[Pid(s, t)].(exiting := true))
  }

  /** There is a function behind the reference. */
  ghost predicate Answers(s: Sys, d: Desc)
    requires Inv(s) && RefOk(s.proc, d)
  {
    s.proc[d.pid].valid && s.proc[d.pid].gen == d.gen && s.proc[d.pid].func[d.dsc]
  }

  /** The message is delivered to a process. */
  ghost predicate Entered(s: Sys, t: int, mapped: bool)
    requires Inv(s) && t in s.task
  {
    var d := s.task[t].look;
    Answers(s, d) && d.pid != 0 && mapped
  }

  lemma LastFrame(s: Sys, t: int)
    requires Inv(s) && t in s.task && s.task[t].frames != []
    ensures 0 < Pid(s, t) < |s.proc| && Live(s.proc, s.task[t].frames[|s.task[t].frames| - 1])
  {
  }

  // ---------------------------------------------------------------- references over time

  /** Generations only grow, and a process that is alive in the same generation as before is
      the same incarnation. */
  ghost predicate Later(a: Proc, b: Proc) {
    a.gen <= b.gen && (b.valid && b.gen == a.gen ==> a.valid && b.inc == a.inc)
  }

  ghost predicate SameLife(a: Proc, b: Proc) {
    b.valid == a.valid && b.gen == a.gen && b.inc == a.inc
  }

  ghost predicate AllLater(proc: seq<Proc>, proc': seq<Proc>) {
    && |proc'| == |proc| && (forall p :: 0 <= p < |proc| ==> Later(proc[p], proc'[p]))
    && (|proc| > 0 ==> SameLife(proc[0], proc'[0]))
  }

  lemma RefLater(proc: seq<Proc>, proc': seq<Proc>, d: Desc)
    requires RefOk(proc, d) && AllLater(proc, proc')
    ensures RefOk(proc', d)
  {
    assert Later(proc[d.pid], proc'[d.pid]);
  }

  lemma LiveRef(proc: seq<Proc>, d: Desc)
    requires Live(proc, d)
    ensures RefOk(proc, d)
  {
  }

  lemma LooksLater(proc: seq<Proc>, proc': seq<Proc>, task: map<int, Task>)
    requires Looks(proc, task) && AllLater(proc, proc')
    ensures Looks(proc', task)
  {
    forall t | t in task ensures RefOk(proc', task[t].look) {
      RefLater(proc, proc', task[t].look);
    }
  }

  /** Only slot tables have changed, and those hold good references. */
  ghost predicate Quiet(proc: seq<Proc>, proc': seq<Proc>) {
    && |proc'| == |proc|
    && forall p :: 0 <= p < |proc| ==>
      SameLife(proc[p], proc'[p]) && proc'[p].running == proc[p].running && proc'[p].exiting == proc[p].exiting
  }

  lemma QuietInv(s: Sys, proc': seq<Proc>)
    requires Inv(s) && Quiet(s.proc, proc') && Tables(proc')
    ensures Inv(s.(proc := proc'))
  {
    assert AllLater(s.proc, proc');
    LooksLater(s.proc, proc', s.task);
  }

  lemma TableInv(s: Sys, p: int, i: int, d: Desc)
    requires Inv(s) && 0 <= p < |s.proc| && 0 <= i < NUM_OF_MSGDSC && RefOk(s.proc, d)
    ensures |s.proc[p].dsc| == NUM_OF_MSGDSC && Inv(SetProc(s, p, s.proc[p].(dsc := s.proc[p].dsc[i := d])))
  {
    var proc' := s.proc[p := s.proc[p].(dsc := s.proc[p].dsc[i := d])];
    assert AllLater(s.proc, proc');
    forall q, j | 0 <= q < |proc'| && 0 <= j < NUM_OF_MSGDSC ensures RefOk(proc', proc'[q].dsc[j]) {
      RefLater(s.proc, proc', if q == p && j == i then d else s.proc[q].dsc[j]);
    }
    QuietInv(s, proc');
  }

  lemma SameFrames(task: map<int, Task>, t: int, d: Desc, p: int)
    requires t in task
    ensures FramesOf(task[t := task[t].(look := d)], p) == FramesOf(task, p)
  {
    var task' := task[t := task[t].(look := d)];
    forall u, i ensures (u, i) in FramesOf(task', p) <==> (u, i) in FramesOf(task, p) {}
  }

  lemma LookInv(s: Sys, t: int, d: Desc)
    requires Inv(s) && t in s.task && RefOk(s.proc, d)
    ensures Inv(SetLook(s, t, d))
  {
    hide FramesOf;
    forall p ensures FramesOf(s.task[t := s.task[t].(look := d)], p) == FramesOf(s.task, p) {
      SameFrames(s.task, t, d, p);
    }
  }

  /** The functions of a process are of no concern to the others. */
  lemma FuncInv(s: Sys, who: int, func: seq<bool>)
    requires Inv(s) && 0 <= who < |s.proc| && |func| == NUM_OF_MSGDSC
    ensures Inv(SetProc(s, who, s.proc[who].(func := func)))
  {
    hide Counts, Incs, Frames, Names, Looks;
    var proc' := s.proc[who := s.proc[who].(func := func)];
    assert AllLater(s.proc, proc');
    forall q, j | 0 <= q < |proc'| && 0 <= j < NUM_OF_MSGDSC ensures RefOk(proc', proc'[q].dsc[j]) {
      RefLater(s.proc, proc', s.proc[q].dsc[j]);
    }
    QuietInv(s, proc');
  }

  lemma NameInv(s: Sys, who: int, i: int, name: string)
    requires Inv(s) && 0 <= who < |s.proc| && s.proc[who].valid && 0 <= i < NUM_OF_MSGDSC
    ensures |s.proc[who].func| == NUM_OF_MSGDSC
    ensures Inv(SetProc(s, who, s.proc[who].(func := s.proc[who].func[i := true]))
                  .(names := s.names + [Entry(name, Desc(who, s.proc[who].gen, i, s.proc[who].inc))]))
  {
    var proc' := s.proc[who := s.proc[who].(func := s.proc[who].func[i := true])];
    assert AllLater(s.proc, proc');
    forall q, j | 0 <= q < |proc'| && 0 <= j < NUM_OF_MSGDSC ensures RefOk(proc', proc'[q].dsc[j]) {
      RefLater(s.proc, proc', s.proc[q].dsc[j]);
    }
    QuietInv(s, proc');
  }

  // ---------------------------------------------------------------- processes coming and going

  lemma NoFrames(s: Sys, p: int)
    requires Inv(s) && 0 <= p < |s.proc| && !s.proc[p].valid
    ensures FramesOf(s.task, p) == {}
  {
    forall t, i | t in s.task && 0 <= i < |s.task[t].frames| ensures s.task[t].frames[i].pid != p {
      assert Live(s.proc, s.task[t].frames[i]);
    }
  }

  lemma NewProcessInv(s: Sys, t: int, p: int)
    requires Inv(s) && t in s.task && 0 < p < |s.proc| && !s.proc[p].valid
    ensures var g := s.proc[p].gen + 1;
            Inv(SetLook(SetProc(s, p, Fresh(g, s.next)).(next := s.next + 1), t, Desc(p, g, 0, s.next)))
  {
    var g := s.proc[p].gen + 1;
    var proc' := s.proc[p := Fresh(g, s.next)];
    var s1 := s.(proc := proc', next := s.next + 1);
    NoFrames(s, p);
    assert AllLater(s.proc, proc');
    NewTables(s.proc, p, Fresh(g, s.next));
    LooksLater(s.proc, proc', s.task);
    NewFrames(s, p, proc');
    assert Inv(s1);
    LookInv(s1, t, Desc(p, g, 0, s.next));
  }

  lemma NotLoadedInv(s: Sys, t: int, p: int)
    requires Inv(s) && t in s.task && 0 < p < |s.proc| && !s.proc[p].valid
    ensures |s.proc[0].func| > 0 && s.proc[0].inc == 0
      && Inv(SetLook(NotLoaded(s, p), t, Desc(0, s.proc[p].gen + 1, 0, 0)))
  {
    hide Inv, RefOk;
    KernelTable(s);
    var x := Fresh(s.proc[p].gen + 1, s.next).(valid := false, func := seq(NUM_OF_MSGDSC, i => false));
    StillbornInv(s, p, x);
    FuncInv(SetProc(s, p, x), 0, s.proc[0].func[0 := false]);
    KernelRef(NotLoaded(s, p).proc, s.proc[p].gen + 1);
    LookInv(NotLoaded(s, p), t, Desc(0, s.proc[p].gen + 1, 0, 0));
  }

  lemma KernelTable(s: Sys)
    requires Inv(s)
    ensures |s.proc| > 0 && |s.proc[0].func| == NUM_OF_MSGDSC && s.proc[0].inc == 0
  {
  }

  lemma KernelRef(proc: seq<Proc>, gen: int)
    requires |proc| > 0 && proc[0].inc == 0
    ensures RefOk(proc, Desc(0, gen, 0, 0))
  {
  }

  /** A process that has not come to life. */
  lemma StillbornInv(s: Sys, p: int, x: Proc)
    requires Inv(s) && 0 < p < |s.proc| && !s.proc[p].valid && !x.valid && x.gen > s.proc[p].gen
    requires |x.dsc| == |x.func| == NUM_OF_MSGDSC && forall j :: 0 <= j < NUM_OF_MSGDSC ==> x.dsc[j] == NO_DESC
    ensures Inv(SetProc(s, p, x))
  {
    var proc' := s.proc[p := x];
    assert AllLater(s.proc, proc');
    NewTables(s.proc, p, x);
    LooksLater(s.proc, proc', s.task);
    NewFrames(s, p, proc');
    hide Tables, Looks, Names, Frames, FramesOf;
  }

  lemma NewTables(proc: seq<Proc>, p: int, x: Proc)
    requires Tables(proc) && Kernel(proc) && 0 < p < |proc| && x.gen > proc[p].gen
    requires |x.dsc| == |x.func| == NUM_OF_MSGDSC && forall j :: 0 <= j < NUM_OF_MSGDSC ==> x.dsc[j] == NO_DESC
    ensures Tables(proc[p := x])
  {
    var proc' := proc[p := x];
    assert AllLater(proc, proc');
    forall q, j | 0 <= q < |proc'| && 0 <= j < NUM_OF_MSGDSC ensures RefOk(proc', proc'[q].dsc[j]) {
      if q != p {
        RefLater(proc, proc', proc[q].dsc[j]);
      }
    }
  }

  lemma NewFrames(s: Sys, p: int, proc': seq<Proc>)
    requires Inv(s) && 0 < p < |s.proc| && !s.proc[p].valid && |proc'| == |s.proc|
    requires forall q :: 0 <= q < |s.proc| && q != p ==> proc'[q] == s.proc[q]
    ensures Frames(proc', s.task) && Names(proc', s.names)
  {
    forall t, i | t in s.task && 0 <= i < |s.task[t].frames| ensures s.task[t].frames[i].pid > 0
      && Live(proc', s.task[t].frames[i]) {
      assert Live(s.proc, s.task[t].frames[i]);
    }
    forall k | 0 <= k < |s.names| ensures Live(proc', s.names[k].to) {
      assert Live(s.proc, s.names[k].to);
    }
  }

  lemma {:induction false} WithoutIs(names: seq<Entry>, pid: int)
    ensures forall k ::
      0 <= k < |Without(names, pid)| ==> Without(names, pid)[k] in names && Without(names, pid)[k].to.pid != pid
    ensures forall x :: x in names && x.to.pid != pid ==> x in Without(names, pid)
  {
    if names != [] {
      WithoutIs(names[1..], pid);
      forall x | x in names && x.to.pid != pid ensures x in Without(names, pid) {
        assert x == names[0] || x in names[1..];
      }
    }
  }

  lemma CleanedInv(s: Sys, p: int)
    requires Kernel(s.proc) && Started(s.proc) && Tables(s.proc) && Looks(s.proc, s.task)
      && Names(s.proc, s.names) && Frames(s.proc, s.task)
    requires Incs(s.proc, s.next, s.cleaned) && 0 < p < |s.proc| && s.proc[p].valid && FramesOf(s.task, p) == {}
    requires forall q :: 0 <= q < |s.proc| && s.proc[q].valid ==> s.proc[q].running == |FramesOf(s.task, q)|
    requires forall q :: 0 <= q < |s.proc| && q != p && s.proc[q].valid && s.proc[q].exiting ==> s.proc[q].running > 0
    ensures Inv(Cleaned(s, p)) && s.proc[p].inc !in s.cleaned
  {
    hide FramesOf, Without;
    var s' := Cleaned(s, p);
    assert AllLater(s.proc, s'.proc);
    forall q, j | 0 <= q < |s'.proc| && 0 <= j < NUM_OF_MSGDSC ensures RefOk(s'.proc, s'.proc[q].dsc[j]) {
      RefLater(s.proc, s'.proc, s.proc[q].dsc[j]);
    }
    LooksLater(s.proc, s'.proc, s.task);
    WithoutIs(s.names, p);
    forall k | 0 <= k < |s'.names| ensures Live(s'.proc, s'.names[k].to) {
      var x := s'.names[k];
      var j :| 0 <= j < |s.names| && s.names[j] == x;
      assert Live(s.proc, s.names[j].to);
    }
    forall t, i | t in s.task && 0 <= i < |s.task[t].frames| ensures s.task[t].frames[i].pid > 0
      && Live(s'.proc, s.task[t].frames[i]) {
      assert Live(s.proc, s.task[t].frames[i]);
      NotIn(s.task, p, t, i);
    }
  }

  lemma NotIn(task: map<int, Task>, p: int, t: int, i: int)
    requires FramesOf(task, p) == {} && t in task && 0 <= i < |task[t].frames|
    ensures task[t].frames[i].pid != p
  {
    assert (t, i) !in FramesOf(task, p);
  }

  // ---------------------------------------------------------------- calls

  lemma PushFrame(task: map<int, Task>, t: int, d: Desc, p: int)
    requires t in task
    ensures var task' := task[t := task[t].(frames := task[t].frames + [d])];
            FramesOf(task', p) == if d.pid == p then FramesOf(task, p) + {(t, |task[t].frames|)} else FramesOf(task, p)
    ensures (t, |task[t].frames|) !in FramesOf(task, p)
  {
    var task' := task[t := task[t].(frames := task[t].frames + [d])];
    forall u, i ensures (u, i) in FramesOf(task', p) <==>
      (u, i) in FramesOf(task, p) || (d.pid == p && u == t && i == |task[t].frames|) {}
  }

  lemma PopFrame(task: map<int, Task>, t: int, p: int)
    requires t in task && task[t].frames != []
    ensures var f := task[t].frames;
            var task' := task[t := task[t].(frames := f[..|f| - 1])];
            && FramesOf(task', p)
              == (if f[|f| - 1].pid == p then FramesOf(task, p) - {(t, |f| - 1)} else FramesOf(task, p))
            && ((t, |f| - 1) in FramesOf(task, p) <==> f[|f| - 1].pid == p)
  {
    var f := task[t].frames;
    var task' := task[t := task[t].(frames := f[..|f| - 1])];
    forall u, i ensures (u, i) in FramesOf(task', p) <==> (u, i) in FramesOf(task, p) && !(u == t && i == |f| - 1) {}
  }

  lemma EnterCounts(s: Sys, t: int)
    requires Inv(s) && t in s.task && Entered(s, t, true)
    ensures var s' := Step(s, Enter(t, true)); Counts(s'.proc, s'.task)
  {
    hide FramesOf, Incs, Names, Frames, Started;
    var d := s.task[t].look;
    var s' := Step(s, Enter(t, true));
    forall p | 0 <= p < |s'.proc| && s'.proc[p].valid ensures s'.proc[p].running == |FramesOf(s'.task, p)| {
      PushFrame(s.task, t, d, p);
    }
  }

  lemma EnterTables(s: Sys, t: int)
    requires Inv(s) && t in s.task && Entered(s, t, true)
    ensures var s' := Step(s, Enter(t, true));
            Kernel(s'.proc) && Started(s'.proc) && Tables(s'.proc) && Looks(s'.proc, s'.task)
  {
    hide Names, Frames, Counts, Incs;
    var s' := Step(s, Enter(t, true));
    assert RefOk(s.proc, s.task[t].look);
    assert AllLater(s.proc, s'.proc);
    hide RefOk;
    forall q, j | 0 <= q < |s'.proc| && 0 <= j < NUM_OF_MSGDSC ensures RefOk(s'.proc, s'.proc[q].dsc[j]) {
      RefLater(s.proc, s'.proc, s.proc[q].dsc[j]);
    }
    LooksLater(s.proc, s'.proc, s.task);
  }

  lemma EnterFrames(s: Sys, t: int)
    requires Inv(s) && t in s.task && Entered(s, t, true)
    ensures var s' := Step(s, Enter(t, true));
            Names(s'.proc, s'.names) && Frames(s'.proc, s'.task) && Incs(s'.proc, s'.next, s'.cleaned)
  {
    hide Tables, Counts, Kernel, Started;
    var d, s' := s.task[t].look, Step(s, Enter(t, true));
    assert RefOk(s.proc, d);
    forall u, i | u in s'.task && 0 <= i < |s'.task[u].frames|
      ensures s'.task[u].frames[i].pid > 0 && Live(s'.proc, s'.task[u].frames[i])
    {
      assert (u == t && i == |s.task[t].frames|) || Live(s.proc, s.task[u].frames[i]);
    }
  }

  lemma EnterInv(s: Sys, t: int)
    requires Inv(s) && t in s.task && Entered(s, t, true)
    ensures Inv(Step(s, Enter(t, true)))
  {
    hide Kernel, Started, Tables, Looks, Names, Frames, Counts, Incs;
    EnterTables(s, t);
    EnterFrames(s, t);
    EnterCounts(s, t);
  }

  lemma LeftInv(s: Sys, t: int)
    requires Inv(s) && t in s.task && s.task[t].frames != []
    ensures 0 < Pid(s, t) < |s.proc| && Inv(Left(s, t))
  {
    LastFrame(s, t);
    var p := Pid(s, t);
    var s1 := Returned(s, t);
    assert s.proc[p].valid && s1.proc[p].valid;
    LeftCounts(s, s1, t, p);
    LeftTables(s, t);
    LeftFrames(s, t);
    hide FramesOf, Kernel, Started, Tables, Looks, Names, Frames, Incs;
    if s1.proc[p].running == 0 && s1.proc[p].exiting {
      CleanedInv(s1, p);
    }
  }

  lemma LeftTables(s: Sys, t: int)
    requires Inv(s) && t in s.task && s.task[t].frames != [] && 0 < Pid(s, t) < |s.proc|
    ensures var s1 := Returned(s, t); Kernel(s1.proc) && Started(s1.proc) && Tables(s1.proc) && Looks(s1.proc, s1.task)
  {
    hide Names, Frames, Counts, Incs, RefOk;
    var s1 := Returned(s, t);
    assert AllLater(s.proc, s1.proc);
    forall q, j | 0 <= q < |s1.proc| && 0 <= j < NUM_OF_MSGDSC ensures RefOk(s1.proc, s1.proc[q].dsc[j]) {
      RefLater(s.proc, s1.proc, s.proc[q].dsc[j]);
    }
    LooksLater(s.proc, s1.proc, s.task);
  }

  lemma LeftFrames(s: Sys, t: int)
    requires Inv(s) && t in s.task && s.task[t].frames != [] && 0 < Pid(s, t) < |s.proc|
    ensures
      var s1 := Returned(s, t);
      Names(s1.proc, s1.names) && Frames(s1.proc, s1.task) && Incs(s1.proc, s1.next, s1.cleaned)
  {
    hide Tables, Looks, Counts, Kernel;
    var s1 := Returned(s, t);
    forall u, i | u in s1.task && 0 <= i < |s1.task[u].frames|
      ensures s1.task[u].frames[i].pid > 0 && Live(s1.proc, s1.task[u].frames[i])
    {
      assert Live(s.proc, s.task[u].frames[i]);
    }
  }

  lemma LeftCounts(s: Sys, s1: Sys, t: int, p: int)
    requires Inv(s) && t in s.task && s.task[t].frames != [] && p == Pid(s, t) && 0 < p < |s.proc| && s.proc[p].valid
    requires s1.proc == s.proc[p := s.proc[p].(running := s.proc[p].running - 1)]
    requires s1.task == s.task[t := s.task[t].(frames := s.task[t].frames[..|s.task[t].frames| - 1])]
    ensures forall q :: 0 <= q < |s1.proc| && s1.proc[q].valid ==> s1.proc[q].running == |FramesOf(s1.task, q)|
    ensures s1.proc[p].running == 0 ==> FramesOf(s1.task, p) == {}
  {
    hide FramesOf;
    forall q | 0 <= q < |s1.proc| && s1.proc[q].valid ensures s1.proc[q].running == |FramesOf(s1.task, q)| {
      PopFrame(s.task, t, q);
    }
  }

  lemma ExitInv(s: Sys, t: int)
    requires Inv(s) && t in s.task && s.task[t].frames != []
    ensures 0 < Pid(s, t) < |s.proc| && Inv(SetProc(s, Pid(s, t), s.proc[Pid(s, t)].(exiting := true)))
  {
    LastFrame(s, t);
    var p := Pid(s, t);
    var proc' := s.proc[p := s.proc[p].(exiting := true)];
    assert AllLater(s.proc, proc');
    assert (t, |s.task[t].frames| - 1) in FramesOf(s.task, p);
    hide FramesOf;
    forall q, j | 0 <= q < |proc'| && 0 <= j < NUM_OF_MSGDSC ensures RefOk(proc', proc'[q].dsc[j]) {
      RefLater(s.proc, proc', s.proc[q].dsc[j]);
    }
    LooksLater(s.proc, proc', s.task);
  }

  lemma NewTaskInv(s: Sys, t: int)
    requires Inv(s) && t !in s.task
    ensures Inv(s.(task := s.task[t := Task([], NO_DESC)]))
  {
    var task' := s.task[t := Task([], NO_DESC)];
    forall p ensures FramesOf(task', p) == FramesOf(s.task, p) {
      forall u, i ensures (u, i) in FramesOf(task', p) <==> (u, i) in FramesOf(s.task, p) {}
    }
  }

  /** A task acts as a process that is alive. */
  lemma ActorLive(s: Sys, t: int, who: int)
    requires Inv(s) && Acts(s, t, who)
    ensures s.proc[who].valid
  {
    if who != 0 {
      LastFrame(s, t);
    }
  }

  lemma SendInv(s: Sys, t: int, who: int, to: int, i: int, mine: bool)
    requires Inv(s) && Enabled(s, SendDesc(t, who, to, i, mine))
    ensures Inv(Step(s, SendDesc(t, who, to, i, mine)))
  {
    hide Counts, Incs, Frames, Names;
    ActorLive(s, t, who);
    var d := s.proc[who].dsc[to];
    assert RefOk(s.proc, d) && RefOk(s.proc, s.proc[who].dsc[i]);
    if !(!s.proc[d.pid].valid || s.proc[d.pid].gen != d.gen || d.pid == 0 || d.dsc != 0) {
      var j := FirstEmpty(s.proc[d.pid].dsc, NUM_OF_MSGDSCRECV, 0);
      if j < NUM_OF_MSGDSCRECV {
        TableInv(s, d.pid, j, if mine then Desc(who, s.proc[who].gen, i, s.proc[who].inc) else s.proc[who].dsc[i]);
      }
    }
  }

  /** Every event keeps the invariant. */
  lemma StepInv(s: Sys, e: Event)
    requires Inv(s) && Enabled(s, e)
    ensures Inv(Step(s, e))
  {
    hide Counts, Incs, Frames;
    match e
    case NewTask(t) => NewTaskInv(s, t);
    case NewProcess(t, mem, loads) =>
      var p := FirstFree(s.proc, 1);
      if p < |s.proc| && mem {
        if loads {
          NewProcessInv(s, t, p);
        } else {
          NotLoadedInv(s, t, p);
        }
      }
    case FindName(t, name) =>
      var k := FindEntry(s.names, name, 0);
      if k < |s.names| {
        LiveRef(s.proc, s.names[k].to);
        LookInv(s, t, s.names[k].to);
      }
    case OpenDesc(t, who) =>
      var i := FirstEmpty(s.proc[who].dsc, NUM_OF_MSGDSC, 0);
      if i < NUM_OF_MSGDSC {
        TableInv(s, who, i, s.task[t].look);
      }
    case Register(t, who, name) =>
      ActorLive(s, t, who);
      var i := FirstFunc(s.proc[who].func, 0);
      if i < NUM_OF_MSGDSC {
        NameInv(s, who, i, Truncated(name));
      }
    case RegisterUnnamed(t, who) =>
      var i := FirstFunc(s.proc[who].func, 0);
      if i < NUM_OF_MSGDSC {
        FuncInv(s, who, s.proc[who].func[i := true]);
      }
    case CloseDesc(t, who, i) => TableInv(s, who, i, s.proc[who].dsc[i].(pid := 0, gen := 0)) by {
        assert RefOk(s.proc, s.proc[who].dsc[i]);
      }
    case SendDesc(t, who, to, i, mine) => SendInv(s, t, who, to, i, mine);
    case FetchDesc(t, who, i) => LookInv(s, t, s.proc[who].dsc[i]);
    case Enter(t, mapped) =>
      if Entered(s, t, mapped) {
        EnterInv(s, t);
      }
    case Leave(t) => LeftInv(s, t);
    case SetExit(t) => ExitInv(s, t);
  }

  // ---------------------------------------------------------------- runs

  ghost predicate Possible(s: Sys, es: seq<Event>)
    decreases |es|
  {
    es != [] ==> Inv(s) && Enabled(s, es[0]) && Possible(Step(s, es[0]), es[1..])
  }

  ghost function After(s: Sys, es: seq<Event>): Sys
    requires Possible(s, es)
    decreases |es|
  {
    if es == [] then s else After(Step(s, es[0]), es[1..])
  }

  /** `process_init_global` and `msg_init_global` */
  ghost function Start(n: nat): Sys {
    var idle := seq(NUM_OF_MSGDSC, i => NO_DESC);
    Sys(seq(n + 1, p => Proc(p == 0, 1, 0, 0, false, idle, seq(NUM_OF_MSGDSC, i => false))), [], map[], 1, {})
  }

  lemma StartInv(n: nat)
    ensures Inv(Start(n))
  {
    forall p ensures FramesOf(map[], p) == {} {}
  }

  /** Whatever the callers do, in whatever order, every state on the way is in order. */
  lemma {:induction false} RunInv(n: nat, es: seq<Event>)
    requires Possible(Start(n), es)
    ensures Inv(After(Start(n), es))
  {
    StartInv(n);
    RunKeeps(Start(n), es);
  }

  lemma {:induction false} RunKeeps(s: Sys, es: seq<Event>)
    requires Inv(s) && Possible(s, es)
    ensures Inv(After(s, es))
    decreases |es|
  {
    hide Inv, Enabled, Step;
    if es != [] {
      StepInv(s, es[0]);
      RunKeeps(Step(s, es[0]), es[1..]);
    }
  }

  /** A message is delivered only to the incarnation that its reference was made for, whatever
      happened between the making and the sending. */
  lemma Delivered(s: Sys, t: int, mapped: bool)
    requires Inv(s) && t in s.task && Entered(s, t, mapped)
    ensures var d := s.task[t].look; 0 < d.pid < |s.proc| && d.inc == s.proc[d.pid].inc
    ensures var d, s' := s.task[t].look, Step(s, Enter(t, mapped)); s'.task[t].frames == s.task[t].frames + [d]
  {
    assert RefOk(s.proc, s.task[t].look);
  }

  /** While a call lasts, its process stays the same incarnation and stays alive. */
  lemma CallStep(s: Sys, e: Event, t: int, i: int)
    requires Inv(s) && Enabled(s, e) && t in s.task && 0 <= i < |s.task[t].frames|
    requires e == Leave(t) ==> i < |s.task[t].frames| - 1
    ensures var s' := Step(s, e);
            && t in s'.task && i < |s'.task[t].frames| && s'.task[t].frames[i] == s.task[t].frames[i]
            && var d := s.task[t].frames[i]; Live(s.proc, d) && Live(s'.proc, d)
  {
    hide Counts, Incs, Tables, Looks, Names;
    StepInv(s, e);
    if e.Leave? || e.SetExit? {
      LastFrame(s, e.t);
    }
    var s' := Step(s, e);
    assert s'.task[t].frames[i] == s.task[t].frames[i];
  }

  /** An incarnation is cleaned up at the end of its last call after its exit, and once. */
  lemma CleanedOnce(s: Sys, e: Event, x: int)
    requires Inv(s) && Enabled(s, e) && x in Step(s, e).cleaned && x !in s.cleaned
    ensures e.Leave? && e.t in s.task && 0 < Pid(s, e.t) < |s.proc|
    ensures var p, s' := Pid(s, e.t), Step(s, e);
            && s.proc[p].valid && s.proc[p].inc == x && s.proc[p].exiting && s.proc[p].running == 1
            && p < |s'.proc| && !s'.proc[p].valid && s'.proc[p].gen > s.proc[p].gen
  {
    hide Counts, Incs, Tables, Looks, Names;
    if e.Leave? || e.SetExit? {
      LastFrame(s, e.t);
    }
  }

  /** The last call of an exiting process ends with its cleanup. */
  lemma ExitCleans(s: Sys, t: int)
    requires Inv(s) && Enabled(s, Leave(t)) && 0 < Pid(s, t) < |s.proc| && s.proc[Pid(s, t)].exiting
      && s.proc[Pid(s, t)].running == 1
    ensures s.proc[Pid(s, t)].inc in Step(s, Leave(t)).cleaned
    ensures forall k :: 0 <= k < |Step(s, Leave(t)).names| ==> Step(s, Leave(t)).names[k].to.pid != Pid(s, t)
  {
    WithoutIs(s.names, Pid(s, t));
  }

  // ---------------------------------------------------------------- names

  ghost predicate Unique(names: seq<Entry>) {
    forall j, k :: 0 <= j < k < |names| ==> names[j].name != names[k].name
  }

  /** A new name is compared in full with names that are stored cut to their first 15
      characters, so registering it keeps the names distinct exactly when it is not cut or no
      stored name equals what is left of it. */
  lemma RegisterUnique(s: Sys, t: int, who: int, name: string)
    requires Inv(s) && Enabled(s, Register(t, who, name)) && Unique(s.names)
      && Step(s, Register(t, who, name)).names != s.names
    ensures Unique(Step(s, Register(t, who, name)).names) <==>
      |name| <= NAME_MAX || FindEntry(s.names, Truncated(name), 0) == |s.names|
  {
    hide Counts, Incs, Tables, Looks, Names, Frames;
    var n, k := |s.names|, FindEntry(s.names, Truncated(name), 0);
    var names' := Step(s, Register(t, who, name)).names;
    assert names'[n].name == Truncated(name) && names'[..n] == s.names;
    if k < n {
      assert names'[k].name == Truncated(name);
    }
  }

  /** A name that has just been registered is found exactly if it has not been cut. */
  lemma RegisteredFound(s: Sys, t: int, who: int, name: string)
    requires Inv(s) && Enabled(s, Register(t, who, name)) && Step(s, Register(t, who, name)).names != s.names
    ensures var names' := Step(s, Register(t, who, name)).names;
            FindEntry(names', name, 0) < |names'| <==> |name| <= NAME_MAX
  {
    hide Counts, Incs, Tables, Looks, Names, Frames;
    var n, names' := |s.names|, Step(s, Register(t, who, name)).names;
    assert names'[n].name == Truncated(name) && names'[..n] == s.names;
    assert forall j :: 0 <= j < n ==> names'[j] == s.names[j];
  }

  /** A step that does not register a name too long keeps the names distinct. */
  lemma StepUnique(s: Sys, e: Event)
    requires Inv(s) && Enabled(s, e) && Unique(s.names) && (e.Register? ==> |e.name| <= NAME_MAX)
    ensures Unique(Step(s, e).names)
  {
    hide Inv, Tables, Looks, Names, Frames, Counts, Incs;
    if e.Register? && Step(s, e).names != s.names {
      RegisterUnique(s, e.t, e.who, e.name);
    } else if e.Leave? {
      LastFrame(s, e.t);
      WithoutUnique(s.names, Pid(s, e.t));
    }
  }

  lemma {:induction false} WithoutUnique(names: seq<Entry>, pid: int)
    requires Unique(names)
    ensures Unique(Without(names, pid))
  {
    if names != [] {
      var rest := Without(names[1..], pid);
      WithoutUnique(names[1..], pid);
      WithoutIs(names[1..], pid);
      forall k | 0 <= k < |rest| ensures rest[k].name != names[0].name {
        var j :| 0 <= j < |names[1..]| && names[1..][j] == rest[k];
        assert names[j + 1] == rest[k];
      }
    }
  }

  /** Along a run that registers no name of more than 15 characters, names are distinct in every
      state. */
  lemma {:induction false} RunUnique(s: Sys, es: seq<Event>)
    requires Inv(s) && Possible(s, es) && Unique(s.names)
    requires forall e :: e in es && e.Register? ==> |e.name| <= NAME_MAX
    ensures Unique(After(s, es).names)
    decreases |es|
  {
    hide Inv, Enabled, Step, Unique;
    if es != [] {
      StepInv(s, es[0]);
      StepUnique(s, es[0]);
      RunUnique(Step(s, es[0]), es[1..]);
    }
  }

  /** What a failed load leaves behind: the reference that the caller gets names the kernel in a
      generation that the kernel does not have, then or after any further events. */
  lemma NotLoadedDead(s: Sys, t: int, es: seq<Event>)
    requires Inv(s) && Enabled(s, NewProcess(t, true, false)) && FirstFree(s.proc, 1) < |s.proc|
      && Possible(Step(s, NewProcess(t, true, false)), es)
    ensures var s' := Step(s, NewProcess(t, true, false));
            && t in s'.task
            && var d, s'' := s'.task[t].look, After(s', es);
            && d.pid == 0 && Inv(s'') && d.gen != s''.proc[0].gen && RefOk(s''.proc, d) && !Answers(s'', d)
  {
    hide Counts, Incs, Names, Frames, Tables, Looks;
    StepInv(s, NewProcess(t, true, false));
    RunKeeps(Step(s, NewProcess(t, true, false)), es);
    KernelRef(After(Step(s, NewProcess(t, true, false)), es).proc, s.proc[FirstFree(s.proc, 1)].gen + 1);
  }

  /** A failed load takes the function of slot 0 from the kernel: no reference to that slot is
      answered, the other slots of the kernel are as before, and the next function that the
      kernel registers goes there. */
  lemma NotLoadedDamage(s: Sys, t: int)
    requires Inv(s) && Enabled(s, NewProcess(t, true, false)) && FirstFree(s.proc, 1) < |s.proc|
    ensures var s' := Step(s, NewProcess(t, true, false));
            && Inv(s') && FirstFunc(s'.proc[0].func, 0) == 0
            && (forall d :: RefOk(s'.proc, d) && d.pid == 0 ==>
                  (Answers(s', d) <==> RefOk(s.proc, d) && Answers(s, d) && d.dsc != 0))
  {
    hide Counts, Incs, Names, Frames, Looks;
    StepInv(s, NewProcess(t, true, false));
  }

  /** Two kernel names of 16 characters that differ in the last one end up as one. */
  lemma DuplicateNames(s: Sys, t: int)
    requires s == Start(1).(task := map[t := Task([], NO_DESC)])
    ensures Inv(s) && Enabled(s, Register(t, 0, "abcdefghijklmnop"))
    ensures var s1 := Step(s, Register(t, 0, "abcdefghijklmnop"));
            && Inv(s1) && Enabled(s1, Register(t, 0, "abcdefghijklmnoq"))
            && !Unique(Step(s1, Register(t, 0, "abcdefghijklmnoq")).names)
  {
    StartInv(1);
    assert Start(1).task == map[];
    NewTaskInv(Start(1), t);
    assert Start(1).(task := Start(1).task[t := Task([], NO_DESC)]) == s;
    var e, a, b := Register(t, 0, "abcdefghijklmnop"), "abcdefghijklmnop", "abcdefghijklmnoq";
    StepInv(s, e);
    var s1 := Step(s, e);
    assert FirstFunc(s.proc[0].func, 0) == 0;
    assert s1.names == [Entry(Truncated(a), Desc(0, 1, 0, 0))];
    assert Truncated(a) == Truncated(b) && |Truncated(a)| == 15;
    assert s1.proc[0].func[1] == false;
    assert FirstFunc(s1.proc[0].func, 0) == 1;
    var names := Step(s1, Register(t, 0, b)).names;
    assert names[0].name == names[1].name;
  }
}
