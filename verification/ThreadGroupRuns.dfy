/** What holds over every run of the process table machine. */
module ThreadGroupRuns {
  import opened Common
  import opened ProcessTable
  import opened ThreadGroups
  import opened PageDirectories

  lemma BootInv(pg: nat)
    ensures Inv(Boot(pg)) && DirInv(Boot(pg))
  {
    var s := Boot(pg);
    var ps := s.procs;
    assert forall i :: 0 < i < NPROC ==> ps[i] == Proc(Unused, 0, 0, NIL, NIL, NoChan, false, 0, 0, User);
    forall l ensures CountOk(ps, l) {
      if l == 0 {
        var none := ps[0 := ps[0].(state := Zombie)];
        LiveCountZero(none, 0);
        LiveCountOne(none, ps, 0, 0);
      }
    }
    assert InUseLeader(ps, 0);
  }

  lemma {:induction false} RunKeeps(s: Sys, steps: seq<Step>, s': Sys)
    requires s.fault != PanicUndead && (s.fault == NoFault ==> Inv(s)) && Run(s, steps, s')
    ensures s'.fault != PanicUndead
    ensures s'.fault == NoFault ==> Inv(s')
    decreases |steps|
  {
    if steps != [] {
      StepKeeps(s, steps[0]);
      RunKeeps(Next(s, steps[0]), steps[1..], s');
    }
  }

  /** No run, of any length and with any interleaving, panics with "undead". */
  lemma Reachable(pg: nat, steps: seq<Step>, s: Sys)
    requires Run(Boot(pg), steps, s)
    ensures s.fault != PanicUndead
    ensures s.fault == NoFault ==> Inv(s)
  {
    BootInv(pg);
    RunKeeps(Boot(pg), steps, s);
  }

  // ---- thread accounting --------------------------------------------------

  ghost function LiveSet(ps: seq<Proc>, leader: int): set<int> {
    set i | 0 <= i < |ps| && LiveIn(ps[i], leader)
  }

  lemma {:induction false} LiveCountIsSize(ps: seq<Proc>, leader: int)
    ensures LiveCount(ps, leader) == |LiveSet(ps, leader)|
  {
    if ps == [] {
      assert LiveSet(ps, leader) == {};
    } else {
      var n := |ps| - 1;
      var rest := LiveSet(ps[..n], leader);
      LiveCountIsSize(ps[..n], leader);
      if LiveIn(ps[n], leader) {
        assert LiveSet(ps, leader) == rest + {n};
      } else {
        assert LiveSet(ps, leader) == rest;
      }
    }
  }

  /** In every reachable state the leader's threadcount is the number of
      SLEEPING, RUNNABLE or RUNNING threads of its group. */
  lemma ThreadAccounting(pg: nat, steps: seq<Step>, s: Sys, l: int)
    requires Run(Boot(pg), steps, s) && s.fault == NoFault
    requires IsLeader(s.procs, l)
    ensures s.procs[l].threadcount == |LiveSet(s.procs, l)|
  {
    Reachable(pg, steps, s);
    assert CountOk(s.procs, l);
    LiveCountIsSize(s.procs, l);
  }

  /** exit never takes the unsigned count below zero. */
  lemma ExitCountPositive(pg: nat, steps: seq<Step>, s: Sys, t: int)
    requires Run(Boot(pg), steps, s) && Enabled(s, DoExit(t))
    ensures s.procs[s.procs[t].process].threadcount >= 1
  {
    Reachable(pg, steps, s);
    LiveGroup(s.procs, s.nextpid, t);
  }

  /** fork's child is the only thread of a new group, a child of the caller's group,
      on a directory of its own and with a pid and a group id that nobody has. */
  lemma ForkMakesChild(pg: nat, steps: seq<Step>, s: Sys, t: int, dir: nat)
    requires Run(Boot(pg), steps, s) && Enabled(s, DoForkSetup(t, dir))
    ensures var np, s' := s.procs[t].pc.np, Next(s, DoForkSetup(t, dir));
      && |s'.procs| == |s.procs| && Valid(s.procs, np) && s.procs[np].state.Embryo?
      && LiveSet(s'.procs, np) == {np} && s'.procs[np].state.Runnable? && s'.procs[np].parent == s.procs[t].process
      && s'.procs[np].pid == s'.procs[np].tgid == s.procs[np].pid && s'.procs[np].pgdir == dir
      && s'.dirs == s.dirs + {dir} && dir !in s.dirs
      && (forall i :: Valid(s.procs, i) && i != np && i != t ==> s'.procs[i] == s.procs[i])
      && s'.procs[t] == s.procs[t].(pc := User)
      && forall i :: Valid(s.procs, i) && i != np && !s.procs[i].state.Unused? ==>
           s'.procs[np].pid != s'.procs[i].pid && s'.procs[np].tgid != s'.procs[i].tgid
  {
    Reachable(pg, steps, s);
    var ps, n, np, qs := s.procs, s.nextpid, s.procs[t].pc.np, Next(s, DoForkSetup(t, dir)).procs;
    assert SlotOk(ps, n, t) && SlotOk(ps, n, np);
    forall i | Valid(ps, i) && i != np
      ensures !LiveIn(qs[i], np) && (!ps[i].state.Unused? ==> qs[np].pid != qs[i].pid && qs[np].tgid != qs[i].tgid)
    {
      SpareLeadsNobody(ps, n, np, i);
      assert SlotOk(ps, n, i) && PairOk(ps, np, i);
    }
  }

  /** clone adds its slot to the live threads of the caller's group, unless the
      caller was killed; then it is a ZOMBIE of the group. */
  lemma CloneAddsThread(pg: nat, steps: seq<Step>, s: Sys, t: int)
    requires Run(Boot(pg), steps, s) && Enabled(s, DoCloneFinish(t))
    ensures var np, l, s' := s.procs[t].pc.np, s.procs[t].process, Next(s, DoCloneFinish(t));
      && |s'.procs| == |s.procs| && Valid(s.procs, np) && s.procs[np].state.Embryo?
      && LiveSet(s'.procs, l) == LiveSet(s.procs, l) + (if s.procs[t].killed then {} else {np})
      && (if s.procs[t].killed then s'.procs[np].state.Zombie? else s'.procs[np].state.Runnable?)
      && s'.procs[np].process == l && s'.procs[np].tgid == s.procs[t].tgid && s'.procs[np].parent == s.procs[t].parent
      && s'.procs[t] == s.procs[t].(pc := User, threadcount := s'.procs[t].threadcount)
      && forall i :: Valid(s.procs, i) && i != np && i != t && i != l ==> s'.procs[i] == s.procs[i]
  {
    Reachable(pg, steps, s);
    var ps, n, np := s.procs, s.nextpid, s.procs[t].pc.np;
    assert SlotOk(ps, n, t) && SlotOk(ps, n, np);
    SpareLeadsNobody(ps, n, np, t);
  }

  /** exit takes the thread out of the live threads of its group, gives its children
      to init, and leaves nobody asleep who waits for the group or as its parent. */
  lemma ExitLeaves(pg: nat, steps: seq<Step>, s: Sys, t: int)
    requires Run(Boot(pg), steps, s) && Enabled(s, DoExit(t))
    ensures var l, s' := s.procs[t].process, Next(s, DoExit(t));
      && |s'.procs| == |s.procs| && LiveSet(s'.procs, l) == LiveSet(s.procs, l) - {t} && s'.procs[t].state.Zombie?
      && forall i :: Valid(s.procs, i) && i != t ==> AfterExit(s.procs[t], t, s.initproc, s.procs[i], s'.procs[i])
  {
    Reachable(pg, steps, s);
    ExitIsStep(s, t);
    var ps, qs := s.procs, Next(s, DoExit(t)).procs;
    ExitLive(ps, qs, s.initproc, t);
    assert ExitRel(ps, qs, s.initproc, t, t);
    forall i | Valid(ps, i) && i != t ensures AfterExit(ps[t], t, s.initproc, ps[i], qs[i]) {
      assert ExitRel(ps, qs, s.initproc, t, i);
    }
  }

  /** What the exit of me, slot t, makes of another slot. */
  predicate AfterExit(me: Proc, t: int, init: int, p: Proc, q: Proc) {
    && q.parent == (if p.parent == t then init else p.parent)
    && (q.state.Sleeping? ==> q.chan != OnProc(me.process) && q.chan != OnProc(me.parent))
    && (q.state == p.state || (p.state.Sleeping? && q.state.Runnable?))
    && q == p.(state := q.state, parent := q.parent, threadcount := q.threadcount)
  }

  lemma ExitLive(ps: seq<Proc>, qs: seq<Proc>, init: int, t: int)
    requires ExitStep(ps, qs, init, t)
    ensures LiveSet(qs, ps[t].process) == LiveSet(ps, ps[t].process) - {t}
  {
    var l := ps[t].process;
    forall i | 0 <= i < |ps| ensures LiveIn(qs[i], l) <==> LiveIn(ps[i], l) && i != t {
      assert ExitRel(ps, qs, init, t, i);
    }
  }

  /** kill leaves the first slot with the pid killed and not asleep; wakeup leaves
      nobody asleep on its channel; a thread that yields can be scheduled again, and
      runs then; and none of them changes anything else. */
  lemma QuietSteps(s: Sys, a: Step)
    requires Enabled(s, a) && (a.DoKill? || a.DoWakeup? || a.DoYield? || a.DoSchedule?)
    ensures var s' := Next(s, a);
      && s' == s.(procs := s'.procs) && |s'.procs| == |s.procs|
      && forall i :: Valid(s.procs, i) ==>
           var p, q := s.procs[i], s'.procs[i];
           && q == p.(state := q.state, killed := q.killed)
           && (if a.DoKill? && FirstWithPid(s.procs, a.pid, i) then q.killed else q.killed == p.killed)
           && (if a.DoYield? && i == a.t then p.state.Running? && q.state.Runnable?
               else if a.DoSchedule? && i == a.t then p.state.Runnable? && q.state.Running?
               else if p.state.Sleeping? && ((a.DoKill? && FirstWithPid(s.procs, a.pid, i)) ||
                                             (a.DoWakeup? && p.chan == OnOther(a.id)))
               then q.state.Runnable? else q.state == p.state)
  {
    if a.DoKill? {
      var k := FindPid(s.procs, a.pid, 0);
      assert k < |s.procs| ==> FirstWithPid(s.procs, a.pid, k);
    }
  }

  /** No thread is stuck in a call: in every reachable state a thread that runs can
      take the next step of the call it is in, whatever that is, and one in user
      space can make any call. */
  lemma CallsGoOn(pg: nat, steps: seq<Step>, s: Sys, t: int, dir: nat)
    requires Run(Boot(pg), steps, s) && s.fault == NoFault && IsRunning(s, t) && FreshDir(s, dir)
    ensures GoesOn(s, t, dir)
  {
    Reachable(pg, steps, s);
    assert SlotOk(s.procs, s.nextpid, t);
    SlotGoesOn(s, t, dir);
  }

  ghost predicate GoesOn(s: Sys, t: int, dir: nat)
    requires Valid(s.procs, t)
  {
    match s.procs[t].pc
    case User =>
      && Enabled(s, DoAlloc(t, false)) && Enabled(s, DoAlloc(t, true)) && Enabled(s, DoWait(t))
      && Enabled(s, DoExecStart(t)) && (t != s.initproc ==> Enabled(s, DoExit(t)))
      && forall pid: nat :: MayJoin(s, t, pid) ==> Enabled(s, DoJoin(t, pid))
    case ForkAlloc(_) => Enabled(s, DoForkSetup(t, dir)) && Enabled(s, DoForkFail(t)) && Enabled(s, DoAllocFail(t))
    case CloneAlloc(_) => Enabled(s, DoCloneGroup(t)) && Enabled(s, DoAllocFail(t))
    case CloneGroup(_) => Enabled(s, DoCloneParent(t))
    case CloneParent(_) => Enabled(s, DoCloneFinish(t))
    case InWait => Enabled(s, DoWait(t))
    case InJoin(_, _) => Enabled(s, DoJoinAgain(t))
    case InExec => Enabled(s, DoExecCheck(t))
    case ExecAlone => Enabled(s, DoExecTake(t))
    case ExecLoad => Enabled(s, DoExecCommit(t, dir)) && Enabled(s, DoExecFail(t))
  }

  ghost predicate MayJoin(s: Sys, t: int, pid: nat)
    requires Valid(s.procs, t)
  {
    JoinTarget(s, t, pid) == NIL || NoOtherJoiner(s, t, JoinTarget(s, t, pid))
  }

  lemma SlotGoesOn(s: Sys, t: int, dir: nat)
    requires s.fault == NoFault && IsRunning(s, t) && SlotOk(s.procs, s.nextpid, t) && FreshDir(s, dir)
    ensures GoesOn(s, t, dir)
  {
  }

  /** Slot k is of a child group of thread t, and the group has no live thread. */
  ghost predicate DeadChild(ps: seq<Proc>, t: int, k: int) {
    Valid(ps, t) && Valid(ps, k) && ps[k].parent == ps[t].process && LiveSet(ps, ps[k].process) == {}
  }

  ghost predicate FirstDead(ps: seq<Proc>, t: int, k: int) {
    DeadChild(ps, t, k) && forall i :: 0 <= i < k ==> !DeadChild(ps, t, i)
  }

  /** Thread t moves to pc and nothing else changes. */
  ghost predicate OnlyMoves(s: Sys, s': Sys, t: int, pc: Pc) {
    && s'.dirs == s.dirs && s'.fault == s.fault && |s'.procs| == |s.procs| && Valid(s.procs, t) && s'.procs[t].pc == pc
    && forall i :: Valid(s.procs, i) && i != t ==> s'.procs[i] == s.procs[i]
  }

  /** The group of slot k, all of them ZOMBIEs, comes back with the directory of its
      leader, unless exec has taken the leader's pid from it; t moves on, and no
      other slot changes. */
  ghost predicate GroupGone(s: Sys, s': Sys, t: int, k: int) {
    && |s'.procs| == |s.procs| && Valid(s.procs, t) && Valid(s.procs, k) && Valid(s.procs, s.procs[k].process)
    && (forall i :: Valid(s.procs, i) && s.procs[i].process == s.procs[k].process ==>
         s.procs[i].state.Zombie? && Blank(s'.procs[i]))
    && (forall i :: Valid(s.procs, i) && s.procs[i].process != s.procs[k].process && i != t ==>
         s'.procs[i] == s.procs[i])
    && s'.procs[t].state.Running? && s'.procs[t].pc == User
    && var p := s.procs[s.procs[k].process]; s'.dirs == if p.pid == p.tgid then s.dirs - {p.pgdir} else s.dirs
  }

  /** The directory that goes with the group of slot k is allocated. */
  ghost predicate FreesHeld(s: Sys, k: int) {
    && Valid(s.procs, k) && Valid(s.procs, s.procs[k].process)
    && var p := s.procs[s.procs[k].process]; p.pid == p.tgid ==> p.pgdir in s.dirs
  }

  lemma DeadIsHarvestable(s: Sys, t: int, k: int)
    requires Inv(s) && Valid(s.procs, t) && Live(s.procs[t]) && Valid(s.procs, k)
    ensures DeadChild(s.procs, t, k) <==> s.procs[k].parent == s.procs[t].process && Harvestable(s.procs, s.procs[k])
  {
    var ps, n := s.procs, s.nextpid;
    assert SlotOk(ps, n, k) && SlotOk(ps, n, t) && CountOk(ps, ps[k].process);
    LiveCountIsSize(ps, ps[k].process);
  }

  /** wait, in every reachable state: a caller that is killed or has no child
      returns; one whose child groups all have live threads goes to sleep; and
      otherwise exactly the first child group without one comes back. */
  lemma WaitReapsWholeGroups(pg: nat, steps: seq<Step>, s: Sys, t: int)
    requires Run(Boot(pg), steps, s) && Enabled(s, DoWait(t))
    ensures var s', ps := Next(s, DoWait(t)), s.procs;
      if ps[t].killed || (forall i :: Valid(ps, i) ==> ps[i].parent != ps[t].process) then OnlyMoves(s, s', t, User)
      else if forall k :: !DeadChild(ps, t, k) then
        OnlyMoves(s, s', t, InWait) && s'.procs[t].state.Sleeping? && s'.procs[t].chan == OnProc(ps[t].process)
      else exists k ::
        && FirstDead(ps, t, k)
        && if FreesHeld(s, k) then s'.fault == NoFault && GroupGone(s, s', t, k) else s'.fault == BadFreevm
  {
    Reachable(pg, steps, s);
    var ps := s.procs;
    var k := FindHarvest(ps, ps[t].process, 0);
    forall i | Valid(ps, i)
      ensures DeadChild(ps, t, i) <==> ps[i].parent == ps[t].process && Harvestable(ps, ps[i])
    {
      DeadIsHarvestable(s, t, i);
    }
    if HasChild(ps, ps[t].process) && !ps[t].killed && k < |ps| {
      assert FirstDead(ps, t, k);
      WaitGone(s, t, k);
    }
  }

  lemma FirstIsFound(s: Sys, t: int, k: int)
    requires Inv(s) && Valid(s.procs, t) && Live(s.procs[t]) && FirstDead(s.procs, t, k)
    ensures FindHarvest(s.procs, s.procs[t].process, 0) == k
  {
    var h := FindHarvest(s.procs, s.procs[t].process, 0);
    DeadIsHarvestable(s, t, k);
    if h < |s.procs| { DeadIsHarvestable(s, t, h); }
  }

  lemma WaitGone(s: Sys, t: int, k: int)
    requires Inv(s) && Enabled(s, DoWait(t)) && k == FindHarvest(s.procs, s.procs[t].process, 0) < |s.procs|
    requires HasChild(s.procs, s.procs[t].process) && !s.procs[t].killed && DeadChild(s.procs, t, k)
    ensures if FreesHeld(s, k) then Wait(s, t).fault == NoFault && GroupGone(s, Wait(s, t), t, k)
            else Wait(s, t).fault == BadFreevm
  {
    var ps, l := s.procs, s.procs[k].process;
    GotoTable(s, t);
    WaitReaps(s, t, k);
    assert SlotOk(ps, s.nextpid, t) && SlotOk(ps, s.nextpid, k);
    forall i | Valid(ps, i)
      ensures ps[i].tgid == ps[k].tgid <==> ps[i].process == l
      ensures ps[i].process == l ==> ps[i].state.Zombie?
    {
      HarvestGroup(ps, s.nextpid, k, i);
    }
    ReapDirs(Goto(s, t, User), ps[k].tgid, l, 0);
  }

  /** The reaping loop frees one directory, that of the group's leader, if the
      leader still has the group's id as its pid. */
  lemma {:induction false} ReapDirs(s: Sys, tgid: nat, l: int, k: nat)
    requires k <= |s.procs| && s.fault == NoFault && Valid(s.procs, l)
    requires forall i :: k <= i < |s.procs| && s.procs[i].tgid == tgid ==> s.procs[i].state.Zombie?
    requires forall i :: k <= i < |s.procs| && s.procs[i].tgid == tgid && s.procs[i].process == i ==> i == l
    requires k <= l ==> s.procs[l].tgid == tgid && s.procs[l].process == l
    ensures var r, frees := ReapGroup(s, tgid, k), k <= l && s.procs[l].pid == tgid;
      if frees && s.procs[l].pgdir !in s.dirs then r.fault == BadFreevm
      else r.fault == NoFault && r.dirs == if frees then s.dirs - {s.procs[l].pgdir} else s.dirs
    decreases |s.procs| - k
  {
    if k < |s.procs| {
      var p := s.procs[k];
      if p.tgid != tgid {
        ReapDirs(s, tgid, l, k + 1);
      } else if k == l && p.pid == tgid {
        if p.pgdir in s.dirs {
          ReapDirs(s.(procs := s.procs[k := Recycled(p)], dirs := s.dirs - {p.pgdir}), tgid, l, k + 1);
        }
      } else {
        ReapDirs(s.(procs := s.procs[k := Recycled(p)]), tgid, l, k + 1);
      }
    }
  }

  /** Without an exec by a thread that is no leader a reaped group's directory goes
      with it, every time. */
  lemma WaitFreesDirectory(pg: nat, steps: seq<Step>, s: Sys, t: int, k: int)
    requires Run(Boot(pg), steps, s) && LeaderExecRun(Boot(pg), steps) && Enabled(s, DoWait(t))
    requires !s.procs[t].killed && FirstDead(s.procs, t, k)
    ensures var s' := Next(s, DoWait(t)); s'.fault == NoFault && GroupGone(s, s', t, k)
    ensures Valid(s.procs, s.procs[k].process)
    ensures var d := s.procs[s.procs[k].process].pgdir; d in s.dirs && Next(s, DoWait(t)).dirs == s.dirs - {d}
  {
    BootInv(pg);
    DirRunKeeps(Boot(pg), steps, s);
    var ps, l := s.procs, s.procs[k].process;
    DeadIsHarvestable(s, t, k);
    assert SlotOk(ps, s.nextpid, t) && SlotOk(ps, s.nextpid, k);
    HarvestZombie(ps, s.nextpid, k, l);
    assert DirSlot(ps, s.dirs, l);
    FirstIsFound(s, t, k);
    WaitGone(s, t, k);
  }

  /** No thread stays asleep in wait while one of its child groups has no live
      thread left. */
  lemma NoLostExit(pg: nat, steps: seq<Step>, s: Sys, t: int, c: int)
    requires Run(Boot(pg), steps, s) && s.fault == NoFault
    requires Valid(s.procs, t) && s.procs[t].state.Sleeping? && s.procs[t].pc.InWait?
    requires Valid(s.procs, c) && s.procs[c].parent == s.procs[t].process
    ensures LiveSet(s.procs, s.procs[c].process) != {}
  {
    Reachable(pg, steps, s);
    assert PairOk(s.procs, t, c) && SlotOk(s.procs, s.nextpid, c) && SlotOk(s.procs, s.nextpid, t);
    ThreadAccounting(pg, steps, s, s.procs[c].process);
  }

  // ---- reaping safety -----------------------------------------------------

  /** The process pointer of a live thread names a slot in use that leads the
      thread's own group, and no two groups share a thread group id. */
  lemma ProcessPointers(pg: nat, steps: seq<Step>, s: Sys, t: int)
    requires Run(Boot(pg), steps, s) && s.fault == NoFault && Valid(s.procs, t) && Live(s.procs[t])
    ensures InUseLeader(s.procs, s.procs[t].process)
    ensures s.procs[s.procs[t].process].tgid == s.procs[t].tgid
    ensures forall u :: Valid(s.procs, u) && !Spare(s.procs[u]) && s.procs[u].tgid == s.procs[t].tgid ==>
              s.procs[u].process == s.procs[t].process
  {
    Reachable(pg, steps, s);
    var ps, n := s.procs, s.nextpid;
    assert SlotOk(ps, n, t) && SlotOk(ps, n, ps[t].process);
    forall u | Valid(ps, u) && !Spare(ps[u]) && ps[u].tgid == ps[t].tgid ensures ps[u].process == ps[t].process {
      assert SlotOk(ps, n, u) && PairOk(ps, ps[u].process, ps[t].process);
    }
  }

  /** A pass of join by t on slot j: j is of t's group, and comes back exactly if
      it is a ZOMBIE, not the leader and without the leader's pid; t goes to sleep
      exactly if it is no ZOMBIE and t is not killed, and returns otherwise; and no
      other slot changes. */
  ghost predicate JoinPassed(s: Sys, s': Sys, t: int, j: int, pid: nat) {
    && s'.dirs == s.dirs && s'.fault == s.fault && |s'.procs| == |s.procs|
    && Valid(s.procs, t) && Valid(s.procs, j) && s.procs[j].process == s.procs[t].process
    && (forall i :: Valid(s.procs, i) && i != t && i != j ==> s'.procs[i] == s.procs[i])
    && (j != t ==>
         var p := s.procs[j];
         if p.state.Zombie? && p.process != j && p.pid != p.tgid then Blank(s'.procs[j]) else s'.procs[j] == p)
    && if s.procs[j].state.Zombie? || s.procs[t].killed then s'.procs[t].state.Running? && s'.procs[t].pc == User
       else && s'.procs[t].state.Sleeping? && s'.procs[t].pc == InJoin(j, pid)
            && s'.procs[t].chan == OnProc(s.procs[t].process)
  }

  /** join gives back only a ZOMBIE of the caller's own group, never a leader, and
      touches no other slot but the caller's: in its first pass, where it looks
      for the target, and in every later one, after a sleep. */
  lemma JoinReapsOwnGroup(pg: nat, steps: seq<Step>, s: Sys, t: int, pid: nat)
    requires Run(Boot(pg), steps, s)
    ensures Enabled(s, DoJoin(t, pid)) ==>
      var j := JoinTarget(s, t, pid);
      if j == NIL then Next(s, DoJoin(t, pid)) == s else JoinPassed(s, Next(s, DoJoin(t, pid)), t, j, pid)
    ensures Enabled(s, DoJoinAgain(t)) ==>
      JoinPassed(s, Next(s, DoJoinAgain(t)), t, s.procs[t].pc.target, s.procs[t].pc.pid)
  {
    if s.fault == NoFault {
      Reachable(pg, steps, s);
      assert SlotOk(s.procs, s.nextpid, t);
      JoinFirst(s, t, pid);
      JoinLater(s, t);
    }
  }

  lemma JoinFirst(s: Sys, t: int, pid: nat)
    requires SlotOk(s.procs, s.nextpid, t)
    ensures Enabled(s, DoJoin(t, pid)) && JoinTarget(s, t, pid) != NIL ==>
      JoinPassed(s, Next(s, DoJoin(t, pid)), t, JoinTarget(s, t, pid), pid)
  {
    if Enabled(s, DoJoin(t, pid)) && JoinTarget(s, t, pid) != NIL {
      JoinOnTarget(s, t, JoinTarget(s, t, pid), pid);
    }
  }

  lemma JoinLater(s: Sys, t: int)
    requires SlotOk(s.procs, s.nextpid, t)
    ensures Enabled(s, DoJoinAgain(t)) ==>
      JoinPassed(s, Next(s, DoJoinAgain(t)), t, s.procs[t].pc.target, s.procs[t].pc.pid)
  {
    if Enabled(s, DoJoinAgain(t)) {
      JoinOnTarget(s, t, s.procs[t].pc.target, s.procs[t].pc.pid);
    }
  }

  lemma JoinOnTarget(s: Sys, t: int, j: int, pid: nat)
    requires Valid(s.procs, t) && Valid(s.procs, j) && s.procs[j].process == s.procs[t].process
    requires s.procs[t].state.Running?
    ensures JoinPassed(s, JoinOn(s, t, j, pid), t, j, pid)
  {
  }

  ghost predicate LeaderExecRun(s: Sys, steps: seq<Step>)
    decreases |steps|
  {
    steps != [] ==> LeaderExec(s, steps[0]) && (Enabled(s, steps[0]) ==> LeaderExecRun(Next(s, steps[0]), steps[1..]))
  }

  lemma {:induction false} DirRunKeeps(s: Sys, steps: seq<Step>, s': Sys)
    requires DirInv(s) && Run(s, steps, s') && LeaderExecRun(s, steps)
    ensures DirInv(s')
    decreases |steps|
  {
    if steps != [] {
      DirStep(s, steps[0]);
      DirRunKeeps(Next(s, steps[0]), steps[1..], s');
    }
  }

  /** No directory was freed twice; every live thread runs on its leader's
      directory, which is allocated; no two groups share one; and the allocated
      directories are exactly those of the groups in use. */
  ghost predicate DirsOwned(s: Sys) {
    && s.fault == NoFault
    && (forall t :: Valid(s.procs, t) && Live(s.procs[t]) ==>
         && Valid(s.procs, s.procs[t].process)
         && s.procs[t].pgdir == s.procs[s.procs[t].process].pgdir
         && s.procs[t].pgdir in s.dirs)
    && (forall l, m :: InUseLeader(s.procs, l) && InUseLeader(s.procs, m) && l != m ==>
         s.procs[l].pgdir != s.procs[m].pgdir)
    && (forall d :: d in s.dirs <==> exists l :: InUseLeader(s.procs, l) && s.procs[l].pgdir == d)
  }

  /** wait will free the directory of every group in use: it does so for the
      member that both leads the group and carries the group's id as its pid. */
  ghost predicate DirsFreeable(s: Sys) {
    forall l :: InUseLeader(s.procs, l) ==> s.procs[l].pid == s.procs[l].tgid
  }

  /** While only leaders get through exec's waiting loop, the page directories
      are in order in every state of every run. */
  lemma DirectoriesSafe(pg: nat, steps: seq<Step>, s: Sys)
    requires Run(Boot(pg), steps, s) && LeaderExecRun(Boot(pg), steps)
    ensures DirsOwned(s) && DirsFreeable(s)
  {
    BootInv(pg);
    DirRunKeeps(Boot(pg), steps, s);
    DirInvOwned(s);
  }

  lemma DirInvOwned(s: Sys)
    requires DirInv(s)
    ensures DirsOwned(s) && DirsFreeable(s)
  {
    var ps := s.procs;
    forall l | InUseLeader(ps, l) ensures ps[l].pid == ps[l].tgid {
      assert DirSlot(ps, s.dirs, l);
    }
    forall t | Valid(ps, t) && Live(ps[t])
      ensures Valid(ps, ps[t].process) && ps[t].pgdir == ps[ps[t].process].pgdir && ps[t].pgdir in s.dirs
    {
      assert SlotOk(ps, s.nextpid, t) && DirSlot(ps, s.dirs, t) && DirSlot(ps, s.dirs, ps[t].process);
    }
    forall l, m | InUseLeader(ps, l) && InUseLeader(ps, m) && l != m ensures ps[l].pgdir != ps[m].pgdir {
      assert DirPair(ps, l, m);
    }
    forall d ensures d in s.dirs <==> exists l :: InUseLeader(ps, l) && ps[l].pgdir == d {
      if d in s.dirs { assert DirHeld(ps, d); }
      if l :| InUseLeader(ps, l) && ps[l].pgdir == d { assert DirSlot(ps, s.dirs, l); }
    }
  }

  ghost predicate AlwaysInOrder(s: Sys, steps: seq<Step>)
    decreases |steps|
  {
    && DirsOwned(s) && DirsFreeable(s)
    && (steps != [] && Enabled(s, steps[0]) ==> AlwaysInOrder(Next(s, steps[0]), steps[1..]))
  }

  /** The directories are in order throughout a run if and only if every thread
      that left exec's waiting loop led its group. */
  lemma InOrderExactly(pg: nat, steps: seq<Step>, s: Sys)
    requires Run(Boot(pg), steps, s)
    ensures AlwaysInOrder(Boot(pg), steps) <==> LeaderExecRun(Boot(pg), steps)
  {
    BootInv(pg);
    InOrderFrom(Boot(pg), steps, s);
  }

  lemma {:induction false} InOrderFrom(s: Sys, steps: seq<Step>, s': Sys)
    requires DirInv(s) && Run(s, steps, s')
    ensures AlwaysInOrder(s, steps) <==> LeaderExecRun(s, steps)
    decreases |steps|
  {
    DirInvOwned(s);
    if steps != [] {
      if LeaderExec(s, steps[0]) {
        DirStep(s, steps[0]);
        InOrderFrom(Next(s, steps[0]), steps[1..], s');
      } else {
        TakenFromLeader(s, steps[0].t);
      }
    }
  }

  /** A thread that is not the leader swaps its pid for the leader's, so wait will
      not free the group's directory. */
  lemma TakenFromLeader(s: Sys, t: int)
    requires DirInv(s) && Enabled(s, DoExecTake(t)) && s.procs[t].process != t
    ensures !DirsFreeable(Next(s, DoExecTake(t)))
  {
    var ps, l := s.procs, s.procs[t].process;
    assert SlotOk(ps, s.nextpid, t) && SlotOk(ps, s.nextpid, l) && DirSlot(ps, s.dirs, t);
    assert InUseLeader(Next(s, DoExecTake(t)).procs, l);
  }

  /** exec in full, from leaving the waiting loop to the switch of directories:
      the directories stay owned if and only if the caller leads its group. */
  lemma ExecExactly(pg: nat, steps: seq<Step>, s: Sys, t: int, dir: nat)
    requires Run(Boot(pg), steps, s) && LeaderExecRun(Boot(pg), steps)
    requires Enabled(s, DoExecTake(t)) && FreshDir(s, dir)
    ensures Enabled(Next(s, DoExecTake(t)), DoExecCommit(t, dir))
    ensures DirsOwned(Next(Next(s, DoExecTake(t)), DoExecCommit(t, dir))) <==> s.procs[t].process == t
  {
    BootInv(pg);
    DirRunKeeps(Boot(pg), steps, s);
    var s1 := Next(s, DoExecTake(t));
    var s2 := Next(s1, DoExecCommit(t, dir));
    if s.procs[t].process == t {
      DirStep(s, DoExecTake(t));
      DirStep(s1, DoExecCommit(t, dir));
      DirInvOwned(s2);
    } else {
      SplitOff(s, t, dir);
    }
  }

  /** A caller that is not the leader moves to the new directory and frees the
      one its leader still names. */
  lemma SplitOff(s: Sys, t: int, dir: nat)
    requires DirInv(s) && Enabled(s, DoExecTake(t)) && FreshDir(s, dir) && s.procs[t].process != t
    ensures !DirsOwned(Next(Next(s, DoExecTake(t)), DoExecCommit(t, dir)))
  {
    var ps, l := s.procs, s.procs[t].process;
    assert SlotOk(ps, s.nextpid, t) && DirSlot(ps, s.dirs, t) && DirSlot(ps, s.dirs, l);
    assert UsesDir(ps, t) && InUseLeader(ps, l);
    var qs := Next(Next(s, DoExecTake(t)), DoExecCommit(t, dir)).procs;
    assert Live(qs[t]) && qs[t].process == l && qs[t].pgdir == dir && qs[l].pgdir == ps[l].pgdir;
  }

  // ---- the exec barrier ---------------------------------------------------

  /** Of the threads of one group at most one is past exec's killed check, and
      while it is there no other passes. */
  lemma OneExec(pg: nat, steps: seq<Step>, s: Sys, t: int, u: int)
    requires Run(Boot(pg), steps, s) && s.fault == NoFault
    requires Valid(s.procs, t) && Valid(s.procs, u) && t != u && s.procs[t].process == s.procs[u].process
    requires Execing(s.procs[t].pc)
    ensures !Execing(s.procs[u].pc)
    ensures Enabled(s, DoExecStart(u)) ==> Next(s, DoExecStart(u)) == s
  {
    Reachable(pg, steps, s);
    assert PairOk(s.procs, t, u) && SlotOk(s.procs, s.nextpid, t);
  }

  /** When exec leaves its waiting loop every other member of the group is a
      ZOMBIE, and no thread is in the middle of cloning into the group. */
  lemma BarrierPassed(pg: nat, steps: seq<Step>, s: Sys, t: int)
    requires Run(Boot(pg), steps, s) && Enabled(s, DoExecCheck(t))
    requires Next(s, DoExecCheck(t)).procs[t].pc == ExecAlone
    ensures forall i :: Valid(s.procs, i) && i != t && s.procs[i].process == s.procs[t].process ==>
              s.procs[i].state.Zombie? && s.procs[i].pc == User
    ensures LiveSet(s.procs, s.procs[t].process) == {t}
  {
    Reachable(pg, steps, s);
    var ps := s.procs;
    forall i | Valid(ps, i) && i != t && ps[i].process == ps[t].process
      ensures ps[i].state.Zombie? && ps[i].pc == User
    {
      assert SlotOk(ps, s.nextpid, i) && SlotOk(ps, s.nextpid, t);
    }
  }

  /** kin and every slot that a slot of kin, or one of its offspring, clones. */
  ghost function Offspring(s: Sys, kin: set<int>, steps: seq<Step>): set<int>
    decreases |steps|
  {
    if steps == [] || !Enabled(s, steps[0]) then kin
    else Offspring(Next(s, steps[0]), Born(s, kin, steps[0]), steps[1..])
  }

  ghost function Born(s: Sys, kin: set<int>, a: Step): set<int>
    requires Enabled(s, a)
  {
    if a.DoCloneGroup? && a.t in kin then kin + {s.procs[a.t].pc.np} else kin
  }

  predicate KinSlot(ps: seq<Proc>, g: nat, kin: set<int>, i: int) {
    Valid(ps, i) ==>
      && (ps[i].state.Embryo? ==> ps[i].pid != g)
      && (ps[i].tgid == g ==>
          !ps[i].state.Unused? && !(ps[i].state.Embryo? && ps[i].process == i) && (ps[i].state.Zombie? || i in kin))
  }

  /** Every member of group g that is not a ZOMBIE belongs to kin. */
  ghost predicate KinOk(s: Sys, g: nat, kin: set<int>) {
    0 < g < s.nextpid && forall i :: KinSlot(s.procs, g, kin, i)
  }

  predicate KinKeeps(p: Proc, q: Proc) {
    || (q.tgid == 0 && q.state.Unused?)
    || (&& q.tgid == p.tgid && q.process == p.process
        && (q.state.Embryo? ==> p.state.Embryo? && q.pid == p.pid)
        && (q.state.Unused? ==> p.state.Unused?)
        && (Live(q) ==> Live(p) || p.state.Embryo?))
  }

  lemma KinCarry(s: Sys, s': Sys, g: nat, kin: set<int>)
    requires KinOk(s, g, kin) && s'.nextpid == s.nextpid && |s'.procs| == |s.procs|
    requires forall i :: Valid(s.procs, i) ==> KinKeeps(s.procs[i], s'.procs[i])
    ensures KinOk(s', g, kin)
  {
    forall i ensures KinSlot(s'.procs, g, kin, i) {
      assert KinSlot(s.procs, g, kin, i);
    }
  }

  lemma KinExit(s: Sys, t: int, g: nat, kin: set<int>)
    requires Inv(s) && Enabled(s, DoExit(t)) && KinOk(s, g, kin)
    ensures KinOk(Exit(s, t), g, kin)
  {
    ExitIsStep(s, t);
    forall i | Valid(s.procs, i) ensures KinKeeps(s.procs[i], Exit(s, t).procs[i]) {
      assert ExitRel(s.procs, Exit(s, t).procs, s.initproc, t, i);
    }
    KinCarry(s, Exit(s, t), g, kin);
  }

  lemma KinWait(s: Sys, t: int, g: nat, kin: set<int>)
    requires Inv(s) && Enabled(s, DoWait(t)) && KinOk(s, g, kin) && Wait(s, t).fault == NoFault
    ensures KinOk(Wait(s, t), g, kin)
  {
    var k := FindHarvest(s.procs, s.procs[t].process, 0);
    if HasChild(s.procs, s.procs[t].process) && !s.procs[t].killed && k < |s.procs| {
      GotoTable(s, t);
      WaitReaps(s, t, k);
      ReapCounters(Goto(s, t, User), s.procs[k].tgid, 0);
    }
    KinCarry(s, Wait(s, t), g, kin);
  }

  lemma {:induction false} ReapCounters(s: Sys, tgid: nat, k: nat)
    requires k <= |s.procs|
    ensures ReapGroup(s, tgid, k).nextpid == s.nextpid
    decreases |s.procs| - k
  {
    if k < |s.procs| {
      var p := s.procs[k];
      if p.tgid != tgid {
        ReapCounters(s, tgid, k + 1);
      } else if p.state.Zombie? {
        var s1 := s.(procs := s.procs[k := Recycled(p)]);
        ReapCounters(s1, tgid, k + 1);
        ReapCounters(s1.(dirs := s.dirs - {p.pgdir}), tgid, k + 1);
      }
    }
  }

  lemma KinMake(s: Sys, a: Step, g: nat, kin: set<int>)
    requires Inv(s) && Enabled(s, a) && KinOk(s, g, kin)
    requires a.DoAlloc? || a.DoAllocFail? || a.DoForkFail? || a.DoForkSetup?
    ensures KinOk(Next(s, a), g, kin)
  {
    var s' := Next(s, a);
    forall i ensures KinSlot(s'.procs, g, kin, i) {
      assert KinSlot(s.procs, g, kin, i) && SlotOk(s.procs, s.nextpid, i) && SlotOk(s.procs, s.nextpid, a.t);
    }
  }

  lemma KinCloneGroup(s: Sys, t: int, g: nat, kin: set<int>)
    requires Inv(s) && Enabled(s, DoCloneGroup(t)) && KinOk(s, g, kin)
    ensures KinOk(Next(s, DoCloneGroup(t)), g, Born(s, kin, DoCloneGroup(t)))
  {
    var s', kin' := Next(s, DoCloneGroup(t)), Born(s, kin, DoCloneGroup(t));
    assert KinSlot(s.procs, g, kin, t) && SlotOk(s.procs, s.nextpid, t);
    SpareLeadsNobody(s.procs, s.nextpid, s.procs[t].pc.np, t);
    forall i ensures KinSlot(s'.procs, g, kin', i) {
      assert KinSlot(s.procs, g, kin, i);
    }
  }

  lemma KinQuiet(s: Sys, a: Step, g: nat, kin: set<int>)
    requires Inv(s) && Enabled(s, a) && KinOk(s, g, kin) && Quiet(a)
    ensures KinOk(Next(s, a), g, kin)
  {
    KinCarry(s, Next(s, a), g, kin);
  }

  lemma KinExec(s: Sys, a: Step, g: nat, kin: set<int>)
    requires Inv(s) && Enabled(s, a) && KinOk(s, g, kin) && Execs(a)
    ensures KinOk(Next(s, a), g, kin)
  {
    if a.DoExecTake? {
      AloneCount(s.procs, s.nextpid, a.t);
      assert SlotOk(s.procs, s.nextpid, a.t) && SlotOk(s.procs, s.nextpid, s.procs[a.t].process);
    }
    KinCarry(s, Next(s, a), g, kin);
  }

  lemma KinClone(s: Sys, a: Step, g: nat, kin: set<int>)
    requires Inv(s) && Enabled(s, a) && KinOk(s, g, kin)
    requires a.DoCloneParent? || a.DoCloneFinish?
    ensures KinOk(Next(s, a), g, kin)
  {
    assert SlotOk(s.procs, s.nextpid, a.t);
    KinCarry(s, Next(s, a), g, kin);
  }

  lemma KinJoin(s: Sys, a: Step, g: nat, kin: set<int>)
    requires Inv(s) && Enabled(s, a) && KinOk(s, g, kin) && (a.DoJoin? || a.DoJoinAgain?)
    ensures KinOk(Next(s, a), g, kin)
  {
    KinCarry(s, Next(s, a), g, kin);
  }

  lemma KinStep(s: Sys, a: Step, g: nat, kin: set<int>)
    requires Inv(s) && Enabled(s, a) && KinOk(s, g, kin) && Next(s, a).fault == NoFault
    ensures KinOk(Next(s, a), g, Born(s, kin, a))
  {
    if Quiet(a) {
      KinQuiet(s, a, g, kin);
    } else if Execs(a) {
      KinExec(s, a, g, kin);
    } else if a.DoCloneGroup? {
      KinCloneGroup(s, a.t, g, kin);
    } else if a.DoCloneParent? || a.DoCloneFinish? {
      KinClone(s, a, g, kin);
    } else if Makes(a) {
      KinMake(s, a, g, kin);
    } else if a.DoExit? {
      KinExit(s, a.t, g, kin);
    } else if a.DoWait? {
      KinWait(s, a.t, g, kin);
    } else {
      KinJoin(s, a, g, kin);
    }
  }

  lemma {:induction false} KinRun(s: Sys, steps: seq<Step>, s': Sys, g: nat, kin: set<int>)
    requires s.fault == NoFault ==> Inv(s) && KinOk(s, g, kin)
    requires Run(s, steps, s') && s'.fault == NoFault
    ensures KinOk(s', g, Offspring(s, kin, steps))
    decreases |steps|
  {
    if steps != [] {
      var s1 := Next(s, steps[0]);
      if s1.fault == NoFault {
        StepKeeps(s, steps[0]);
        KinStep(s, steps[0], g, kin);
      }
      KinRun(s1, steps[1..], s', g, Born(s, kin, steps[0]));
    }
  }

  /** After exec has left its waiting loop, nobody joins the group in any
      continuation of the run except through the thread that called exec: every
      later member that is not a ZOMBIE is that thread or its offspring. */
  lemma BarrierHolds(pg: nat, steps: seq<Step>, s: Sys, t: int, later: seq<Step>, s': Sys)
    requires Run(Boot(pg), steps, s) && Enabled(s, DoExecCheck(t))
    requires Next(s, DoExecCheck(t)).procs[t].pc == ExecAlone
    requires Run(Next(s, DoExecCheck(t)), later, s') && s'.fault == NoFault
    ensures forall i :: Valid(s'.procs, i) && s'.procs[i].tgid == s.procs[t].tgid && !s'.procs[i].state.Zombie? ==>
              i in Offspring(Next(s, DoExecCheck(t)), {t}, later)
  {
    Reachable(pg, steps, s);
    var s1, g := Next(s, DoExecCheck(t)), s.procs[t].tgid;
    StepKeeps(s, DoExecCheck(t));
    BarrierStart(s, t);
    KinRun(s1, later, s', g, {t});
    forall i | Valid(s'.procs, i) && s'.procs[i].tgid == g && !s'.procs[i].state.Zombie?
      ensures i in Offspring(s1, {t}, later)
    {
      assert KinSlot(s'.procs, g, Offspring(s1, {t}, later), i);
    }
  }

  lemma BarrierStart(s: Sys, t: int)
    requires Inv(s) && Enabled(s, DoExecCheck(t)) && !OthersAlive(s.procs, t)
    ensures KinOk(Next(s, DoExecCheck(t)), s.procs[t].tgid, {t})
  {
    var g, s1 := s.procs[t].tgid, Next(s, DoExecCheck(t));
    assert SlotOk(s.procs, s.nextpid, t);
    forall i ensures KinSlot(s1.procs, g, {t}, i) {
      assert PairOk(s.procs, i, t);
    }
  }

  // ---- exec by a thread that is not the leader -----------------------------

  ghost predicate Takes(s: Sys, a: Step, s': Sys) {
    Enabled(s, a) && Next(s, a) == s'
  }

  lemma Before(s: Sys, a: Step, s1: Sys, rest: seq<Step>, s2: Sys)
    requires Takes(s, a, s1) && Run(s1, rest, s2)
    ensures Run(s, [a] + rest, s2)
  {
    assert ([a] + rest)[1..] == rest;
  }

  lemma {:induction false} RunThen(s: Sys, steps: seq<Step>, s1: Sys, more: seq<Step>, s2: Sys)
    requires Run(s, steps, s1) && Run(s1, more, s2)
    ensures Run(s, steps + more, s2)
    decreases |steps|
  {
    if steps == [] {
      assert steps + more == more;
    } else {
      RunThen(Next(s, steps[0]), steps[1..], s1, more, s2);
      assert (steps + more)[1..] == steps[1..] + more;
    }
  }

  lemma {:induction false} NoTake(s: Sys, steps: seq<Step>)
    requires forall i :: 0 <= i < |steps| ==> !steps[i].DoExecTake?
    ensures LeaderExecRun(s, steps)
    decreases |steps|
  {
    if steps != [] && Enabled(s, steps[0]) {
      NoTake(Next(s, steps[0]), steps[1..]);
    }
  }

  function Empty(): Proc {
    Proc(Unused, 0, 0, NIL, NIL, NoChan, false, 0, 0, User)
  }

  /** A table whose first three slots may be in use. */
  function Three(p: Proc, q: Proc, r: Proc, nextpid: nat, dirs: set<nat>): Sys {
    Sys([p, q, r] + seq(NPROC - 3, _ => Empty()), nextpid, 0, dirs, NoFault)
  }

  function Init(pc: Pc): Proc {
    Proc(Running, 1, 1, 0, NIL, NoChan, false, 1, 1, pc)
  }

  function Leader(state: State, killed: bool, count: nat, pc: Pc): Proc {
    Proc(state, 2, 2, 1, 0, NoChan, killed, count, 2, pc)
  }

  function Member(state: State, parent: int, pc: Pc): Proc {
    Proc(state, 3, 2, 1, parent, NoChan, false, 0, 2, pc)
  }

  function Forked(): Sys {
    Three(Init(User), Leader(Running, false, 1, User), Empty(), 3, {1, 2})
  }

  function Cloned(): Sys {
    Three(Init(User), Leader(Running, false, 2, User), Member(Running, 0, User), 4, {1, 2})
  }

  function Alone(): Sys {
    Three(Init(User), Leader(Zombie, true, 1, User), Member(Running, 0, ExecAlone), 4, {1, 2})
  }

  function Scheduled(): Sys {
    Three(Init(User), Empty(), Empty(), 2, {1})
  }

  function Forking(): Sys {
    Three(Init(ForkAlloc(1)), Proc(Embryo, 2, 0, NIL, NIL, NoChan, false, 0, 0, User), Empty(), 3, {1})
  }

  function Ready(): Sys {
    Three(Init(User), Leader(Runnable, false, 1, User), Empty(), 3, {1, 2})
  }

  lemma ForkSteps()
    ensures Takes(Boot(1), DoSchedule(0), Scheduled()) && Takes(Scheduled(), DoAlloc(0, false), Forking())
    ensures Takes(Forking(), DoForkSetup(0, 2), Ready()) && Takes(Ready(), DoSchedule(1), Forked())
  {
    assert FindUnused(Scheduled().procs, 0) == 1;
  }

  lemma ForkRun() returns (steps: seq<Step>)
    ensures Run(Boot(1), steps, Forked())
    ensures forall a :: a in steps ==> !a.DoExecTake?
  {
    ForkSteps();
    Before(Ready(), DoSchedule(1), Forked(), [], Forked());
    Before(Forking(), DoForkSetup(0, 2), Ready(), [DoSchedule(1)] + [], Forked());
    steps := [DoForkSetup(0, 2)] + ([DoSchedule(1)] + []);
    Before(Scheduled(), DoAlloc(0, false), Forking(), steps, Forked());
    steps := [DoAlloc(0, false)] + steps;
    Before(Boot(1), DoSchedule(0), Scheduled(), steps, Forked());
    steps := [DoSchedule(0)] + steps;
  }

  /** The clone of slot 2 under way. */
  function Cloning(pc: Pc, r: Proc): Sys {
    Three(Init(User), Leader(Running, false, 1, pc), r, 4, {1, 2})
  }

  function Published(): Sys {
    Three(Init(User), Leader(Running, false, 2, User), Member(Runnable, 0, User), 4, {1, 2})
  }

  lemma CloneSteps(e: Proc)
    requires e == Proc(Embryo, 3, 0, NIL, NIL, NoChan, false, 0, 0, User)
    ensures Takes(Forked(), DoAlloc(1, true), Cloning(CloneAlloc(2), e))
    ensures Takes(Cloning(CloneAlloc(2), e), DoCloneGroup(1), Cloning(CloneGroup(2), Member(Embryo, NIL, User)))
  {
    assert FindUnused(Forked().procs, 0) == 2;
  }

  lemma CloneEnds()
    ensures Takes(Cloning(CloneGroup(2), Member(Embryo, NIL, User)), DoCloneParent(1),
                  Cloning(CloneParent(2), Member(Embryo, 0, User)))
    ensures Takes(Cloning(CloneParent(2), Member(Embryo, 0, User)), DoCloneFinish(1), Published())
    ensures Takes(Published(), DoSchedule(2), Cloned())
  {
  }

  lemma CloneRun() returns (steps: seq<Step>)
    ensures Run(Forked(), steps, Cloned())
    ensures forall a :: a in steps ==> !a.DoExecTake?
  {
    var e := Proc(Embryo, 3, 0, NIL, NIL, NoChan, false, 0, 0, User);
    var s2, s3 := Cloning(CloneGroup(2), Member(Embryo, NIL, User)), Cloning(CloneParent(2), Member(Embryo, 0, User));
    CloneSteps(e);
    CloneEnds();
    Before(Published(), DoSchedule(2), Cloned(), [], Cloned());
    steps := [DoSchedule(2)] + [];
    Before(s3, DoCloneFinish(1), Published(), steps, Cloned());
    steps := [DoCloneFinish(1)] + steps;
    Before(s2, DoCloneParent(1), s3, steps, Cloned());
    steps := [DoCloneParent(1)] + steps;
    Before(Cloning(CloneAlloc(2), e), DoCloneGroup(1), s2, steps, Cloned());
    steps := [DoCloneGroup(1)] + steps;
    Before(Forked(), DoAlloc(1, true), Cloning(CloneAlloc(2), e), steps, Cloned());
    steps := [DoAlloc(1, true)] + steps;
  }

  lemma {:induction false} NoChildren(ps: seq<Proc>, from: int, to: int, k: nat)
    requires k <= |ps| && forall i :: 0 <= i < |ps| ==> ps[i].parent != from
    ensures PassChildren(ps, from, to, k) == ps
    decreases |ps| - k
  {
    if k < |ps| {
      assert ps[k := Reparented(ps[k], from, to)] == ps;
      NoChildren(ps, from, to, k + 1);
    }
  }

  function Exited(killed: bool, pc: Pc): Sys {
    Three(Init(User), Leader(Zombie, killed, 1, User), Member(Running, 0, pc), 4, {1, 2})
  }

  lemma ExitTaken()
    ensures Takes(Cloned(), DoExit(1), Exited(false, User))
  {
    var ps := Cloned().procs;
    assert Wakeup1(Wakeup1(ps, OnProc(0)), OnProc(1)) == ps;
    NoChildren(ps[1 := ps[1].(threadcount := 1)], 1, 0, 0);
  }

  lemma ExecTaken()
    ensures Takes(Exited(false, User), DoExecStart(2), Exited(true, InExec))
    ensures Takes(Exited(true, InExec), DoExecCheck(2), Alone())
  {
  }

  lemma ExecRun() returns (steps: seq<Step>)
    ensures Run(Cloned(), steps, Alone())
    ensures forall a :: a in steps ==> !a.DoExecTake?
  {
    ExitTaken();
    ExecTaken();
    Before(Exited(true, InExec), DoExecCheck(2), Alone(), [], Alone());
    steps := [DoExecCheck(2)] + [];
    Before(Exited(false, User), DoExecStart(2), Exited(true, InExec), steps, Alone());
    steps := [DoExecStart(2)] + steps;
    Before(Cloned(), DoExit(1), Exited(false, User), steps, Alone());
    steps := [DoExit(1)] + steps;
  }

  /** A run that breaks the ownership of directories: a process clones a thread,
      its first thread exits, and the other one calls exec. */
  lemma MemberExecBreaks() returns (steps: seq<Step>, s: Sys)
    ensures Run(Boot(1), steps, s) && !DirsOwned(s)
  {
    var before := BeforeExec();
    ExecExactly(1, before, Alone(), 2, 3);
    var taken := Next(Alone(), DoExecTake(2));
    s := Next(taken, DoExecCommit(2, 3));
    Before(taken, DoExecCommit(2, 3), s, [], s);
    Before(Alone(), DoExecTake(2), taken, [DoExecCommit(2, 3)] + [], s);
    steps := [DoExecTake(2)] + ([DoExecCommit(2, 3)] + []);
    RunThen(Boot(1), before, Alone(), steps, s);
    steps := before + steps;
  }

  lemma BeforeExec() returns (steps: seq<Step>)
    ensures Run(Boot(1), steps, Alone()) && LeaderExecRun(Boot(1), steps)
    ensures Enabled(Alone(), DoExecTake(2)) && FreshDir(Alone(), 3) && Alone().procs[2].process == 1
  {
    var fork := ForkRun();
    var clone := CloneRun();
    var exec := ExecRun();
    RunThen(Boot(1), fork, Forked(), clone, Cloned());
    RunThen(Boot(1), fork + clone, Cloned(), exec, Alone());
    steps := fork + clone + exec;
    NoTake(Boot(1), steps);
  }
}
