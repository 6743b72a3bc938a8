/** The process table of proc.c with kernel threads: the slots, the thread
    groups they form, and one function per critical section of ptable.lock.

    A slot is an index into ptable.proc, NIL stands for the null pointer.  The
    field pc is the control location of the thread inside the kernel: which of
    the multi-step system calls it is in, and the slot it works on. */
module ProcessTable {

  import opened Common

  const NIL: int := -1

  datatype State = Unused | Embryo | Sleeping | Runnable | Running | Zombie

  /** What a sleeping thread waits for: a proc slot (wait, join and exec sleep
      on the group leader's slot) or any other kernel address. */
  datatype Chan = NoChan | OnProc(slot: int) | OnOther(id: nat)

  datatype Pc =
    | User                            // in user space, or in a call not modelled
    | ForkAlloc(np: int)              // fork holds the embryo np
    | CloneAlloc(np: int)             // clone holds the embryo np
    | CloneGroup(np: int)             // clone has set np's tgid, process, pgdir
    | CloneParent(np: int)            // clone has also copied the parent
    | InWait                          // asleep in wait, or woken there
    | InJoin(target: int, pid: nat)   // asleep in join, or woken there
    | InExec                          // exec has marked the other threads
    | ExecAlone                       // exec has left its waiting loop
    | ExecLoad                        // exec has taken the group over

  datatype Proc = Proc(
    state: State, pid: nat, tgid: nat, process: int, parent: int,
    chan: Chan, killed: bool, threadcount: int, pgdir: nat, pc: Pc)

  /** The panics and frees that must never happen. */
  datatype Fault = NoFault | PanicUndead | BadFreevm

  /** dirs holds the page directories that are allocated at present. */
  datatype Sys = Sys(procs: seq<Proc>, nextpid: nat, initproc: int, dirs: set<nat>, fault: Fault)

  predicate Live(p: Proc) {
    p.state.Sleeping? || p.state.Runnable? || p.state.Running?
  }

  /** A live thread of the group whose leader occupies slot leader. */
  predicate LiveIn(p: Proc, leader: int) {
    Live(p) && p.process == leader
  }

  /** The number of SLEEPING, RUNNABLE and RUNNING threads of a group. */
  function LiveCount(ps: seq<Proc>, leader: int): nat {
    if ps == [] then 0
    else LiveCount(ps[..|ps| - 1], leader) + if LiveIn(ps[|ps| - 1], leader) then 1 else 0
  }

  predicate Valid(ps: seq<Proc>, i: int) {
    0 <= i < |ps|
  }

  predicate IsRunning(s: Sys, t: int) {
    Valid(s.procs, t) && s.procs[t].state.Running?
  }

  // ---- wakeup1, kill, the scheduler --------------------------------------

  function Woken(p: Proc, c: Chan): Proc {
    if p.state.Sleeping? && p.chan == c then p.(state := Runnable) else p
  }

  function Wakeup1(ps: seq<Proc>, c: Chan): (r: seq<Proc>)
    ensures |r| == |ps|
  {
    seq(|ps|, i requires 0 <= i < |ps| => Woken(ps[i], c))
  }

  /** The first slot from k on whose pid is pid, or |ps|. */
  function FindPid(ps: seq<Proc>, pid: nat, k: nat): (r: nat)
    requires k <= |ps|
    ensures k <= r <= |ps|
    ensures r < |ps| ==> ps[r].pid == pid
    ensures forall i :: k <= i < r ==> ps[i].pid != pid
    decreases |ps| - k
  {
    if k == |ps| || ps[k].pid == pid then k else FindPid(ps, pid, k + 1)
  }

  function MarkKilled(p: Proc): Proc {
    p.(killed := true, state := if p.state.Sleeping? then Runnable else p.state)
  }

  function Kill(s: Sys, pid: nat): Sys {
    var k := FindPid(s.procs, pid, 0);
    if k == |s.procs| then s else s.(procs := s.procs[k := MarkKilled(s.procs[k])])
  }

  function Schedule(s: Sys, t: int): Sys
    requires Valid(s.procs, t)
  {
    s.(procs := s.procs[t := s.procs[t].(state := Running)])
  }

  function Yield(s: Sys, t: int): Sys
    requires Valid(s.procs, t)
  {
    s.(procs := s.procs[t := s.procs[t].(state := Runnable)])
  }

  function SleepOn(s: Sys, t: int, c: Chan, pc: Pc): Sys
    requires Valid(s.procs, t)
  {
    s.(procs := s.procs[t := s.procs[t].(state := Sleeping, chan := c, pc := pc)])
  }

  /** The thread leaves a call (or moves on inside it) and is not asleep. */
  function Goto(s: Sys, t: int, pc: Pc): Sys
    requires Valid(s.procs, t)
  {
    s.(procs := s.procs[t := s.procs[t].(chan := NoChan, pc := pc)])
  }

  // ---- allocproc, fork, clone --------------------------------------------

  function FindUnused(ps: seq<Proc>, k: nat): (r: nat)
    requires k <= |ps|
    ensures k <= r <= |ps|
    ensures r < |ps| ==> ps[r].state.Unused?
    ensures forall i :: k <= i < r ==> !ps[i].state.Unused?
    decreases |ps| - k
  {
    if k == |ps| || ps[k].state.Unused? then k else FindUnused(ps, k + 1)
  }

  function AsEmbryo(p: Proc, pid: nat): Proc {
    p.(state := Embryo, pid := pid, pc := User)
  }

  /** allocproc's critical section on behalf of a fork or a clone. */
  function Alloc(s: Sys, t: int, clone: bool): Sys
    requires Valid(s.procs, t)
  {
    var k := FindUnused(s.procs, 0);
    if k == |s.procs| then s
    else
      var ps := s.procs[k := AsEmbryo(s.procs[k], s.nextpid)];
      s.(procs := ps[t := ps[t].(pc := if clone then CloneAlloc(k) else ForkAlloc(k))],
         nextpid := s.nextpid + 1)
  }

  /** No memory for the kernel stack: the slot goes back, its pid stays stale. */
  function AllocFail(s: Sys, t: int, np: int): Sys
    requires Valid(s.procs, t) && Valid(s.procs, np)
  {
    var ps := s.procs[np := s.procs[np].(state := Unused)];
    s.(procs := ps[t := ps[t].(pc := User)])
  }

  /** copyuvm failed: tgid and process of the returned slot stay stale too. */
  function ForkFail(s: Sys, t: int, np: int): Sys
    requires Valid(s.procs, t) && Valid(s.procs, np)
  {
    var p := s.procs[np];
    var ps := s.procs[np := p.(tgid := p.pid, process := np, state := Unused)];
    s.(procs := ps[t := ps[t].(pc := User)])
  }

  function ForkSetup(s: Sys, t: int, np: int, pg: nat): Sys
    requires Valid(s.procs, t) && Valid(s.procs, np)
  {
    var p := s.procs[np];
    var child := p.(tgid := p.pid, process := np, parent := s.procs[t].process, pgdir := pg,
                    state := Runnable, threadcount := 1, pc := User);
    var ps := s.procs[np := child];
    s.(procs := ps[t := ps[t].(pc := User)], dirs := s.dirs + {pg})
  }

  function CloneSetGroup(s: Sys, t: int, np: int): Sys
    requires Valid(s.procs, t) && Valid(s.procs, np)
  {
    var me := s.procs[t];
    var ps := s.procs[np := s.procs[np].(tgid := me.tgid, process := me.process,
                                         pgdir := me.pgdir, threadcount := 0)];
    s.(procs := ps[t := ps[t].(pc := CloneGroup(np))])
  }

  function CloneSetParent(s: Sys, t: int, np: int): Sys
    requires Valid(s.procs, t) && Valid(s.procs, np)
  {
    var ps := s.procs[np := s.procs[np].(parent := s.procs[t].parent)];
    s.(procs := ps[t := ps[t].(pc := CloneParent(np))])
  }

  /** The locked end of clone: a killed cloner publishes a ZOMBIE. */
  function CloneFinish(s: Sys, t: int, np: int): Sys
    requires Valid(s.procs, t) && Valid(s.procs, np) && Valid(s.procs, s.procs[t].process)
  {
    var me := s.procs[t];
    var ps :=
      if me.killed then s.procs[np := s.procs[np].(state := Zombie)]
      else
        var qs := s.procs[np := s.procs[np].(state := Runnable)];
        qs[me.process := qs[me.process].(threadcount := qs[me.process].threadcount + 1)];
    s.(procs := ps[t := ps[t].(pc := User)])
  }

  // ---- exit --------------------------------------------------------------

  function Reparented(p: Proc, from: int, to: int): Proc {
    if p.parent == from then p.(parent := to) else p
  }

  /** exit's loop over the table from slot k on: hand children to init, waking
      init for each one that is a ZOMBIE already. */
  function PassChildren(ps: seq<Proc>, from: int, to: int, k: nat): (r: seq<Proc>)
    requires k <= |ps|
    ensures |r| == |ps|
    decreases |ps| - k
  {
    if k == |ps| then ps
    else
      var qs := ps[k := Reparented(ps[k], from, to)];
      var rs := if ps[k].parent == from && ps[k].state.Zombie? then Wakeup1(qs, OnProc(to)) else qs;
      PassChildren(rs, from, to, k + 1)
  }

  function Exit(s: Sys, t: int): Sys
    requires Valid(s.procs, t) && Valid(s.procs, s.procs[t].process)
  {
    var me := s.procs[t];
    var p1 := Wakeup1(Wakeup1(s.procs, OnProc(me.parent)), OnProc(me.process));
    var p2 := p1[me.process := p1[me.process].(threadcount := p1[me.process].threadcount - 1)];
    var p3 := PassChildren(p2, t, s.initproc, 0);
    s.(procs := p3[t := p3[t].(state := Zombie)])
  }

  // ---- wait --------------------------------------------------------------

  predicate Harvestable(ps: seq<Proc>, p: Proc) {
    Valid(ps, p.process) && ps[p.process].threadcount == 0
  }

  /** The first child (from slot k on) of the group led by parent whose own
      group has no thread left, or |ps|. */
  function FindHarvest(ps: seq<Proc>, parent: int, k: nat): (r: nat)
    requires k <= |ps|
    ensures k <= r <= |ps|
    ensures r < |ps| ==> ps[r].parent == parent && Harvestable(ps, ps[r])
    ensures forall i :: k <= i < r ==> ps[i].parent == parent ==> !Harvestable(ps, ps[i])
    decreases |ps| - k
  {
    if k == |ps| || (ps[k].parent == parent && Harvestable(ps, ps[k])) then k
    else FindHarvest(ps, parent, k + 1)
  }

  predicate HasChild(ps: seq<Proc>, parent: int) {
    exists i :: 0 <= i < |ps| && ps[i].parent == parent
  }

  function Recycled(p: Proc): Proc {
    p.(pid := 0, tgid := 0, parent := NIL, killed := false, state := Unused,
       process := NIL, pgdir := 0, threadcount := 0)
  }

  /** A slot as wait and join give it back. */
  predicate Blank(p: Proc) {
    && p.state.Unused? && p.pid == 0 && p.tgid == 0 && p.process == NIL && p.parent == NIL
    && !p.killed && p.pgdir == 0 && p.threadcount == 0
  }

  /** wait's reaping loop from slot k on, stopping at a panic. */
  function ReapGroup(s: Sys, tgid: nat, k: nat): Sys
    requires k <= |s.procs|
    decreases |s.procs| - k
  {
    if k == |s.procs| then s
    else
      var p := s.procs[k];
      if p.tgid != tgid then ReapGroup(s, tgid, k + 1)
      else if !p.state.Zombie? then s.(fault := PanicUndead)
      else if p.pid == p.tgid && p.process == k then
        if p.pgdir !in s.dirs then s.(fault := BadFreevm)
        else ReapGroup(s.(procs := s.procs[k := Recycled(p)], dirs := s.dirs - {p.pgdir}), tgid, k + 1)
      else ReapGroup(s.(procs := s.procs[k := Recycled(p)]), tgid, k + 1)
  }

  /** One pass of wait's loop: return, sleep, or reap a whole group. */
  function Wait(s: Sys, t: int): Sys
    requires Valid(s.procs, t)
  {
    var me := s.procs[t];
    var k := FindHarvest(s.procs, me.process, 0);
    if !HasChild(s.procs, me.process) || me.killed then Goto(s, t, User)
    else if k == |s.procs| then SleepOn(s, t, OnProc(me.process), InWait)
    else ReapGroup(Goto(s, t, User), s.procs[k].tgid, 0)
  }

  // ---- join --------------------------------------------------------------

  /** The end of join on the slot it found: sleep, give up, or reap. */
  function JoinOn(s: Sys, t: int, j: int, pid: nat): Sys
    requires Valid(s.procs, t) && Valid(s.procs, j)
  {
    var p := s.procs[j];
    if !p.state.Zombie? then
      if s.procs[t].killed then Goto(s, t, User)
      else SleepOn(s, t, OnProc(s.procs[t].process), InJoin(j, pid))
    else
      var s' := Goto(s, t, User);
      if p.tgid != p.pid && j != p.process then s'.(procs := s'.procs[j := Recycled(s'.procs[j])]) else s'
  }

  /** The slot join works on, or NIL when it returns -1 at once. */
  function JoinTarget(s: Sys, t: int, pid: nat): (j: int)
    requires Valid(s.procs, t)
    ensures j == NIL || Valid(s.procs, j)
    ensures j != NIL ==> FirstWithPid(s.procs, pid, j) && SameGroup(s.procs, j, t)
    ensures j == NIL ==> forall i :: FirstWithPid(s.procs, pid, i) ==> !SameGroup(s.procs, i, t)
  {
    var k := FindPid(s.procs, pid, 0);
    if k < |s.procs| && SameGroup(s.procs, k, t) then k else NIL
  }

  /** i is the slot that a scan for pid stops at. */
  predicate FirstWithPid(ps: seq<Proc>, pid: nat, i: int) {
    Valid(ps, i) && ps[i].pid == pid && forall h :: 0 <= h < i ==> ps[h].pid != pid
  }

  predicate SameGroup(ps: seq<Proc>, i: int, t: int)
    requires Valid(ps, i) && Valid(ps, t)
  {
    ps[i].tgid == ps[t].tgid && ps[i].process == ps[t].process
  }

  // ---- exec --------------------------------------------------------------

  function Marked(p: Proc, me: Proc): Proc {
    if p.tgid == me.tgid && p.pid != me.pid then MarkKilled(p) else p
  }

  function ExecStart(s: Sys, t: int): Sys
    requires Valid(s.procs, t)
  {
    var me := s.procs[t];
    if me.killed then s
    else
      var ps := seq(|s.procs|, i requires 0 <= i < |s.procs| => Marked(s.procs[i], me));
      s.(procs := ps[t := ps[t].(pc := InExec)])
  }

  predicate OthersAlive(ps: seq<Proc>, t: int)
    requires Valid(ps, t)
  {
    exists i :: 0 <= i < |ps| && i != t && ps[i].tgid == ps[t].tgid && !ps[i].state.Zombie?
  }

  /** One pass of exec's waiting loop. */
  function ExecCheck(s: Sys, t: int): Sys
    requires Valid(s.procs, t)
  {
    if OthersAlive(s.procs, t) then SleepOn(s, t, OnProc(s.procs[t].process), InExec)
    else Goto(s, t, ExecAlone)
  }

  /** exec.c:64-68, done without the lock. */
  function ExecTake(s: Sys, t: int): Sys
    requires Valid(s.procs, t) && Valid(s.procs, s.procs[t].process)
  {
    var me := s.procs[t];
    var l := me.process;
    var p1 := s.procs[l := s.procs[l].(pid := me.pid)];
    var p2 := p1[t := p1[t].(pid := me.tgid)];
    var p3 := p2[l := p2[l].(threadcount := 1)];
    s.(procs := p3[t := p3[t].(pc := ExecLoad)])
  }

  /** The switch to the new image: exec.c:155-164. */
  function ExecCommit(s: Sys, t: int, pg: nat): Sys
    requires Valid(s.procs, t)
  {
    var olddir := s.procs[t].pgdir;
    var s' := s.(procs := s.procs[t := s.procs[t].(pgdir := pg, pc := User)]);
    if olddir !in s.dirs then s'.(dirs := s.dirs + {pg}, fault := BadFreevm)
    else s'.(dirs := (s.dirs + {pg}) - {olddir})
  }

  // ---- the state machine -------------------------------------------------

  datatype Step =
    | DoSchedule(t: int)
    | DoYield(t: int)
    | DoSleep(t: int, id: nat)        // sleep on some other channel
    | DoWakeup(id: nat)               // wakeup of that channel
    | DoKill(pid: nat)
    | DoAlloc(t: int, clone: bool)
    | DoAllocFail(t: int)
    | DoForkFail(t: int)
    | DoForkSetup(t: int, pg: nat)
    | DoCloneGroup(t: int)
    | DoCloneParent(t: int)
    | DoCloneFinish(t: int)
    | DoExit(t: int)
    | DoWait(t: int)
    | DoJoin(t: int, pid: nat)
    | DoJoinAgain(t: int)
    | DoExecStart(t: int)
    | DoExecCheck(t: int)
    | DoExecTake(t: int)
    | DoExecFail(t: int)
    | DoExecCommit(t: int, pg: nat)

  /** One joiner per target, as the callers promise. */
  predicate NoOtherJoiner(s: Sys, t: int, j: int) {
    forall u :: 0 <= u < |s.procs| && u != t && s.procs[u].pc.InJoin? ==> s.procs[u].pc.target != j
  }

  /** A page that kalloc may return for a new page directory. */
  predicate FreshDir(s: Sys, pg: nat) {
    pg != 0 && pg !in s.dirs
  }

  /** A machine that has panicked takes no step. */
  predicate Enabled(s: Sys, a: Step) {
    s.fault == NoFault &&
    match a
    case DoSchedule(t) => Valid(s.procs, t) && s.procs[t].state.Runnable?
    case DoYield(t) => IsRunning(s, t)
    case DoSleep(t, _) => IsRunning(s, t) && (s.procs[t].pc.User? || s.procs[t].pc.ExecLoad?)
    case DoWakeup(_) => true
    case DoKill(_) => true
    case DoAlloc(t, _) => IsRunning(s, t) && s.procs[t].pc.User?
    case DoAllocFail(t) =>
      && IsRunning(s, t) && (s.procs[t].pc.ForkAlloc? || s.procs[t].pc.CloneAlloc?)
      && Valid(s.procs, s.procs[t].pc.np)
    case DoForkFail(t) => IsRunning(s, t) && s.procs[t].pc.ForkAlloc? && Valid(s.procs, s.procs[t].pc.np)
    case DoForkSetup(t, pg) =>
      IsRunning(s, t) && s.procs[t].pc.ForkAlloc? && Valid(s.procs, s.procs[t].pc.np) && FreshDir(s, pg)
    case DoCloneGroup(t) => IsRunning(s, t) && s.procs[t].pc.CloneAlloc? && Valid(s.procs, s.procs[t].pc.np)
    case DoCloneParent(t) => IsRunning(s, t) && s.procs[t].pc.CloneGroup? && Valid(s.procs, s.procs[t].pc.np)
    case DoCloneFinish(t) =>
      && IsRunning(s, t) && s.procs[t].pc.CloneParent? && Valid(s.procs, s.procs[t].pc.np)
      && Valid(s.procs, s.procs[t].process)
    case DoExit(t) =>
      IsRunning(s, t) && s.procs[t].pc.User? && t != s.initproc && Valid(s.procs, s.procs[t].process)
    case DoWait(t) => IsRunning(s, t) && (s.procs[t].pc.User? || s.procs[t].pc.InWait?)
    case DoJoin(t, pid) =>
      && IsRunning(s, t) && s.procs[t].pc.User?
      && (JoinTarget(s, t, pid) != NIL ==> NoOtherJoiner(s, t, JoinTarget(s, t, pid)))
    case DoJoinAgain(t) => IsRunning(s, t) && s.procs[t].pc.InJoin? && Valid(s.procs, s.procs[t].pc.target)
    case DoExecStart(t) => IsRunning(s, t) && s.procs[t].pc.User?
    case DoExecCheck(t) => IsRunning(s, t) && s.procs[t].pc.InExec?
    case DoExecTake(t) => IsRunning(s, t) && s.procs[t].pc.ExecAlone? && Valid(s.procs, s.procs[t].process)
    case DoExecFail(t) => IsRunning(s, t) && s.procs[t].pc.ExecLoad?
    case DoExecCommit(t, pg) => IsRunning(s, t) && s.procs[t].pc.ExecLoad? && FreshDir(s, pg)
  }

  function Next(s: Sys, a: Step): Sys
    requires Enabled(s, a)
  {
    match a
    case DoSchedule(t) => Schedule(s, t)
    case DoYield(t) => Yield(s, t)
    case DoSleep(t, id) => SleepOn(s, t, OnOther(id), s.procs[t].pc)
    case DoWakeup(id) => s.(procs := Wakeup1(s.procs, OnOther(id)))
    case DoKill(pid) => Kill(s, pid)
    case DoAlloc(t, clone) => Alloc(s, t, clone)
    case DoAllocFail(t) => AllocFail(s, t, s.procs[t].pc.np)
    case DoForkFail(t) => ForkFail(s, t, s.procs[t].pc.np)
    case DoForkSetup(t, pg) => ForkSetup(s, t, s.procs[t].pc.np, pg)
    case DoCloneGroup(t) => CloneSetGroup(s, t, s.procs[t].pc.np)
    case DoCloneParent(t) => CloneSetParent(s, t, s.procs[t].pc.np)
    case DoCloneFinish(t) => CloneFinish(s, t, s.procs[t].pc.np)
    case DoExit(t) => Exit(s, t)
    case DoWait(t) => Wait(s, t)
    case DoJoin(t, pid) =>
      var j := JoinTarget(s, t, pid);
      if j == NIL then s else JoinOn(s, t, j, pid)
    case DoJoinAgain(t) => JoinOn(s, t, s.procs[t].pc.target, s.procs[t].pc.pid)
    case DoExecStart(t) => ExecStart(s, t)
    case DoExecCheck(t) => ExecCheck(s, t)
    case DoExecTake(t) => ExecTake(s, t)
    case DoExecFail(t) => Goto(s, t, User)
    case DoExecCommit(t, pg) => ExecCommit(s, t, pg)
  }

  /** The table after userinit: slot 0 holds the first process. */
  function Boot(pg: nat): Sys {
    var empty := Proc(Unused, 0, 0, NIL, NIL, NoChan, false, 0, 0, User);
    var first := Proc(Runnable, 1, 1, 0, NIL, NoChan, false, 1, pg, User);
    Sys([first] + seq(NPROC - 1, _ => empty), 2, 0, {pg}, NoFault)
  }

  /** s' is reached from s by the steps as, each enabled when it is taken. */
  ghost predicate Run(s: Sys, steps: seq<Step>, s': Sys)
    decreases |steps|
  {
    if steps == [] then s == s'
    else Enabled(s, steps[0]) && Run(Next(s, steps[0]), steps[1..], s')
  }
}
