/** Page directories under clone, exec, join and wait: while only group leaders
    call exec, a directory is never freed twice, never freed while a live thread
    uses it, and never lost. */
module PageDirectories {
  import opened ProcessTable
  import opened ThreadGroups

  predicate InUseLeader(ps: seq<Proc>, l: int) {
    IsLeader(ps, l) && !Spare(ps[l])
  }

  predicate UsesDir(ps: seq<Proc>, i: int)
    requires Valid(ps, i)
  {
    Live(ps[i]) || (ps[i].state.Embryo? && ps[i].process != NIL && ps[i].process != i)
  }

  predicate DirSlot(ps: seq<Proc>, dirs: set<nat>, i: int) {
    Valid(ps, i) ==>
      && (InUseLeader(ps, i) ==> ps[i].pid == ps[i].tgid && ps[i].pgdir in dirs)
      && (UsesDir(ps, i) && Valid(ps, ps[i].process) ==> ps[i].pgdir == ps[ps[i].process].pgdir)
      && (ps[i].pc.ExecLoad? ==> ps[i].process == i)
      && (ps[i].process != NIL && ps[i].process != i ==> ps[i].pid != ps[i].tgid)
  }

  predicate DirPair(ps: seq<Proc>, i: int, j: int) {
    InUseLeader(ps, i) && InUseLeader(ps, j) && i != j ==> ps[i].pgdir != ps[j].pgdir
  }

  ghost predicate DirHeld(ps: seq<Proc>, d: nat) {
    exists l :: InUseLeader(ps, l) && ps[l].pgdir == d
  }

  ghost predicate DirTable(ps: seq<Proc>, dirs: set<nat>) {
    && (forall i :: DirSlot(ps, dirs, i))
    && (forall i, j :: DirPair(ps, i, j))
    && (forall d :: d in dirs ==> DirHeld(ps, d))
  }

  /** A thread that leaves exec's waiting loop leads its group. */
  predicate LeaderExec(s: Sys, a: Step) {
    a.DoExecTake? && Valid(s.procs, a.t) ==> s.procs[a.t].process == a.t
  }

  ghost predicate DirInv(s: Sys) {
    Inv(s) && s.fault == NoFault && DirTable(s.procs, s.dirs)
  }

  predicate Idle(p: Proc, i: int) {
    Spare(p) && (p.process == NIL || p.process == i)
  }

  /** Steps that keep identity, directory, and whether the slot is in use. */
  predicate DirSame(p: Proc, q: Proc, i: int) {
    && q.pgdir == p.pgdir
    && (q.pc.ExecLoad? ==> q.process == i)
    && ((Idle(p, i) && Idle(q, i) && !q.pc.ExecLoad?) ||
        (&& q.pid == p.pid && q.tgid == p.tgid && q.process == p.process
         && (Live(q) ==> Live(p)) && (Live(p) ==> Live(q) || q.state.Zombie?) && (!Live(p) ==> p.state == q.state)))
  }

  lemma DirKeep(ps: seq<Proc>, qs: seq<Proc>, dirs: set<nat>)
    requires DirTable(ps, dirs) && |qs| == |ps|
    requires forall i :: Valid(ps, i) ==> DirSame(ps[i], qs[i], i)
    ensures DirTable(qs, dirs)
  {
    forall i ensures DirSlot(qs, dirs, i) {
      assert DirSlot(ps, dirs, i);
    }
    forall i, j ensures DirPair(qs, i, j) {
      assert DirPair(ps, i, j);
    }
    forall d | d in dirs ensures DirHeld(qs, d) {
      assert DirHeld(ps, d);
      var l :| InUseLeader(ps, l) && ps[l].pgdir == d;
      assert InUseLeader(qs, l) && qs[l].pgdir == d;
    }
  }

  lemma DirQuiet(s: Sys, a: Step)
    requires DirInv(s) && Enabled(s, a) && (Quiet(a) || a.DoExecFail?)
    ensures DirTable(Next(s, a).procs, s.dirs) && Next(s, a).dirs == s.dirs && Next(s, a).fault == NoFault
  {
    assert forall i :: Valid(s.procs, i) ==> DirSlot(s.procs, s.dirs, i);
    DirKeep(s.procs, Next(s, a).procs, s.dirs);
  }

  lemma DirAlloc(s: Sys, t: int, clone: bool)
    requires DirInv(s) && Enabled(s, DoAlloc(t, clone))
    ensures DirTable(Alloc(s, t, clone).procs, s.dirs)
  {
    var k := FindUnused(s.procs, 0);
    assert SlotOk(s.procs, s.nextpid, k) && SlotOk(s.procs, s.nextpid, t);
    forall i | Valid(s.procs, i) ensures DirSame(s.procs[i], Alloc(s, t, clone).procs[i], i) {
      assert DirSlot(s.procs, s.dirs, i);
    }
    DirKeep(s.procs, Alloc(s, t, clone).procs, s.dirs);
  }

  lemma DirAllocFail(s: Sys, t: int)
    requires DirInv(s) && Enabled(s, DoAllocFail(t))
    ensures DirTable(AllocFail(s, t, s.procs[t].pc.np).procs, s.dirs)
  {
    var np := s.procs[t].pc.np;
    assert SlotOk(s.procs, s.nextpid, np) && SlotOk(s.procs, s.nextpid, t);
    forall i | Valid(s.procs, i) ensures DirSame(s.procs[i], AllocFail(s, t, np).procs[i], i) {
      assert DirSlot(s.procs, s.dirs, i);
    }
    DirKeep(s.procs, AllocFail(s, t, np).procs, s.dirs);
  }

  lemma DirForkFail(s: Sys, t: int)
    requires DirInv(s) && Enabled(s, DoForkFail(t))
    ensures DirTable(ForkFail(s, t, s.procs[t].pc.np).procs, s.dirs)
  {
    var np := s.procs[t].pc.np;
    assert SlotOk(s.procs, s.nextpid, np) && SlotOk(s.procs, s.nextpid, t);
    forall i | Valid(s.procs, i) ensures DirSame(s.procs[i], ForkFail(s, t, np).procs[i], i) {
      assert DirSlot(s.procs, s.dirs, i);
    }
    DirKeep(s.procs, ForkFail(s, t, np).procs, s.dirs);
  }

  lemma DirCloneParent(s: Sys, t: int)
    requires DirInv(s) && Enabled(s, DoCloneParent(t))
    ensures DirTable(CloneSetParent(s, t, s.procs[t].pc.np).procs, s.dirs)
  {
    var np := s.procs[t].pc.np;
    assert SlotOk(s.procs, s.nextpid, np) && SlotOk(s.procs, s.nextpid, t);
    forall i | Valid(s.procs, i) ensures DirSame(s.procs[i], CloneSetParent(s, t, np).procs[i], i) {
      assert DirSlot(s.procs, s.dirs, i);
    }
    DirKeep(s.procs, CloneSetParent(s, t, np).procs, s.dirs);
  }

  lemma DirExec(s: Sys, a: Step)
    requires DirInv(s) && Enabled(s, a) && LeaderExec(s, a)
    requires a.DoExecStart? || a.DoExecCheck? || a.DoExecTake?
    ensures DirTable(Next(s, a).procs, s.dirs) && Next(s, a).dirs == s.dirs && Next(s, a).fault == NoFault
  {
    var qs := Next(s, a).procs;
    assert SlotOk(s.procs, s.nextpid, a.t) && DirSlot(s.procs, s.dirs, a.t);
    forall i | Valid(s.procs, i) ensures DirSame(s.procs[i], qs[i], i) {
      DirExecSlot(s, a, i);
    }
    DirKeep(s.procs, qs, s.dirs);
  }

  lemma DirExecSlot(s: Sys, a: Step, i: int)
    requires Enabled(s, a) && LeaderExec(s, a) && (a.DoExecStart? || a.DoExecCheck? || a.DoExecTake?)
    requires Valid(s.procs, i) && SlotOk(s.procs, s.nextpid, a.t) && DirSlot(s.procs, s.dirs, i)
    requires a.DoExecTake? ==> s.procs[a.t].pid == s.procs[a.t].tgid
    ensures DirSame(s.procs[i], Next(s, a).procs[i], i)
  {
  }

  lemma DirExit(s: Sys, t: int)
    requires DirInv(s) && Enabled(s, DoExit(t))
    ensures DirTable(Exit(s, t).procs, s.dirs)
  {
    ExitIsStep(s, t);
    var qs := Exit(s, t).procs;
    forall i | Valid(s.procs, i) ensures DirSame(s.procs[i], qs[i], i) {
      assert DirSlot(s.procs, s.dirs, i) && ExitRel(s.procs, qs, s.initproc, t, i);
    }
    DirKeep(s.procs, qs, s.dirs);
  }

  // ---- steps that hand out a directory ------------------------------------

  lemma DirForkSetup(s: Sys, t: int, pg: nat)
    requires DirInv(s) && Enabled(s, DoForkSetup(t, pg))
    ensures DirTable(Next(s, DoForkSetup(t, pg)).procs, s.dirs + {pg})
  {
    var np := s.procs[t].pc.np;
    var ps, qs, ds := s.procs, Next(s, DoForkSetup(t, pg)).procs, s.dirs + {pg};
    assert SlotOk(ps, s.nextpid, t) && SlotOk(ps, s.nextpid, np);
    forall i ensures DirSlot(qs, ds, i) {
      assert DirSlot(ps, s.dirs, i) && SlotOk(ps, s.nextpid, i);
    }
    forall i, j ensures DirPair(qs, i, j) {
      assert DirPair(ps, i, j) && DirSlot(ps, s.dirs, i) && DirSlot(ps, s.dirs, j);
    }
    forall d | d in ds ensures DirHeld(qs, d) {
      if d == pg {
        assert InUseLeader(qs, np);
      } else {
        assert DirHeld(ps, d);
        var l :| InUseLeader(ps, l) && ps[l].pgdir == d;
        assert InUseLeader(qs, l) && qs[l].pgdir == d;
      }
    }
  }

  predicate SameName(p: Proc, q: Proc) {
    q.state == p.state && q.process == p.process && q.pid == p.pid && q.tgid == p.tgid
  }

  /** The embryo np starts or goes on to share the directory of its leader. */
  lemma DirShare(ps: seq<Proc>, qs: seq<Proc>, n: nat, dirs: set<nat>, np: int)
    requires Table(ps, n) && DirTable(ps, dirs) && |qs| == |ps| && Valid(ps, np)
    requires ps[np].state.Embryo? && qs[np].process != np && !qs[np].pc.ExecLoad? && qs[np].pid != qs[np].tgid
    requires Valid(ps, qs[np].process) && qs[np].pgdir == ps[qs[np].process].pgdir
    requires forall i :: Valid(ps, i) && i != np ==> DirSame(ps[i], qs[i], i) && SameName(ps[i], qs[i])
    ensures DirTable(qs, dirs)
  {
    assert SlotOk(ps, n, np);
    forall i ensures DirSlot(qs, dirs, i) {
      assert DirSlot(ps, dirs, i) && SlotOk(ps, n, i);
    }
    forall i, j ensures DirPair(qs, i, j) {
      assert DirPair(ps, i, j);
    }
    forall d | d in dirs ensures DirHeld(qs, d) {
      assert DirHeld(ps, d);
      var l :| InUseLeader(ps, l) && ps[l].pgdir == d;
      assert InUseLeader(qs, l) && qs[l].pgdir == d;
    }
  }

  lemma DirCloneGroup(s: Sys, t: int)
    requires DirInv(s) && Enabled(s, DoCloneGroup(t))
    ensures DirTable(CloneSetGroup(s, t, s.procs[t].pc.np).procs, s.dirs)
  {
    var ps, np := s.procs, s.procs[t].pc.np;
    assert SlotOk(ps, s.nextpid, t) && SlotOk(ps, s.nextpid, np) && DirSlot(ps, s.dirs, t) && PairOk(ps, np, t);
    forall i | Valid(ps, i) ensures DirSlot(ps, s.dirs, i) {
    }
    DirShare(ps, CloneSetGroup(s, t, np).procs, s.nextpid, s.dirs, np);
  }

  lemma DirCloneFinish(s: Sys, t: int)
    requires DirInv(s) && Enabled(s, DoCloneFinish(t))
    ensures DirTable(CloneFinish(s, t, s.procs[t].pc.np).procs, s.dirs)
  {
    var ps, np := s.procs, s.procs[t].pc.np;
    assert SlotOk(ps, s.nextpid, t) && SlotOk(ps, s.nextpid, np) && DirSlot(ps, s.dirs, np);
    forall i | Valid(ps, i) ensures DirSlot(ps, s.dirs, i) {
    }
    DirShare(ps, CloneFinish(s, t, np).procs, s.nextpid, s.dirs, np);
  }

  /** exec frees a directory that is allocated and that no other live thread or
      embryo uses. */
  lemma DirExecCommit(s: Sys, t: int, pg: nat)
    requires DirInv(s) && Enabled(s, DoExecCommit(t, pg))
    ensures ExecCommit(s, t, pg).fault == NoFault
    ensures DirTable(ExecCommit(s, t, pg).procs, ExecCommit(s, t, pg).dirs)
    ensures forall i :: Valid(s.procs, i) && i != t && UsesDir(s.procs, i) ==> s.procs[i].pgdir != s.procs[t].pgdir
  {
    var ps, s' := s.procs, ExecCommit(s, t, pg);
    var qs, ds := s'.procs, s'.dirs;
    assert SlotOk(ps, s.nextpid, t) && DirSlot(ps, s.dirs, t);
    forall i | Valid(ps, i) && i != t && UsesDir(ps, i) ensures ps[i].process != t && ps[i].pgdir != ps[t].pgdir {
      assert SlotOk(ps, s.nextpid, i) && DirSlot(ps, s.dirs, i) && PairOk(ps, t, i);
      assert DirPair(ps, t, ps[i].process) && SlotOk(ps, s.nextpid, ps[i].process);
      LeaderInUse(ps, s.nextpid, i);
    }
    forall i ensures DirSlot(qs, ds, i) {
      assert DirSlot(ps, s.dirs, i) && DirPair(ps, t, i);
    }
    forall i, j ensures DirPair(qs, i, j) {
      assert DirPair(ps, i, j) && DirSlot(ps, s.dirs, i) && DirSlot(ps, s.dirs, j);
    }
    forall d | d in ds ensures DirHeld(qs, d) {
      if d == pg {
        assert InUseLeader(qs, t);
      } else {
        assert DirHeld(ps, d);
        var l :| InUseLeader(ps, l) && ps[l].pgdir == d;
        assert InUseLeader(qs, l) && qs[l].pgdir == d;
      }
    }
  }

  lemma LeaderInUse(ps: seq<Proc>, n: nat, i: int)
    requires SlotOk(ps, n, i) && Valid(ps, i) && UsesDir(ps, i)
    ensures InUseLeader(ps, ps[i].process)
  {
  }

  // ---- reaping ------------------------------------------------------------

  /** The directories wait's reaping loop frees: that of the leader. */
  lemma {:induction false} ReapGroupDirs(s: Sys, tgid: nat, k: nat, l: int)
    requires k <= |s.procs| && s.fault == NoFault && Valid(s.procs, l)
    requires forall i :: k <= i < |s.procs| && s.procs[i].tgid == tgid ==> s.procs[i].state.Zombie?
    requires forall i :: k <= i < |s.procs| && s.procs[i].tgid == tgid && s.procs[i].process == i ==> i == l
    requires k <= l ==>
      s.procs[l].tgid == tgid == s.procs[l].pid && s.procs[l].process == l && s.procs[l].pgdir in s.dirs
    ensures ReapGroup(s, tgid, k).fault == NoFault
    ensures ReapGroup(s, tgid, k).dirs == if k <= l then s.dirs - {s.procs[l].pgdir} else s.dirs
    decreases |s.procs| - k
  {
    if k < |s.procs| {
      var p := s.procs[k];
      if p.tgid != tgid {
        ReapGroupDirs(s, tgid, k + 1, l);
      } else if k == l {
        ReapGroupDirs(s.(procs := s.procs[k := Recycled(p)], dirs := s.dirs - {p.pgdir}), tgid, k + 1, l);
      } else {
        ReapGroupDirs(s.(procs := s.procs[k := Recycled(p)]), tgid, k + 1, l);
      }
    }
  }

  lemma DirGoto(s: Sys, t: int)
    requires DirInv(s) && IsRunning(s, t) && !Creating(s.procs[t].pc)
    ensures DirInv(Goto(s, t, User))
  {
    GotoTable(s, t);
    assert forall i :: Valid(s.procs, i) ==> DirSlot(s.procs, s.dirs, i);
    DirKeep(s.procs, Goto(s, t, User).procs, s.dirs);
  }

  lemma DirRecycleGroup(ps: seq<Proc>, qs: seq<Proc>, n: nat, dirs: set<nat>, l: int)
    requires Table(ps, n) && DirTable(ps, dirs) && InUseLeader(ps, l) && |qs| == |ps|
    requires forall i :: Valid(ps, i) ==> qs[i] == if ps[i].process == l then Recycled(ps[i]) else ps[i]
    requires forall i :: Valid(ps, i) && ps[i].process == l ==> ps[i].state.Zombie?
    ensures DirTable(qs, dirs - {ps[l].pgdir})
  {
    assert DirSlot(ps, dirs, l);
    var ds := dirs - {ps[l].pgdir};
    forall i ensures DirSlot(qs, ds, i) {
      assert DirSlot(ps, dirs, i) && DirPair(ps, i, l) && SlotOk(ps, n, i);
    }
    forall i, j ensures DirPair(qs, i, j) {
      assert DirPair(ps, i, j);
    }
    forall d | d in ds ensures DirHeld(qs, d) {
      assert DirHeld(ps, d);
      var m :| InUseLeader(ps, m) && ps[m].pgdir == d;
      assert InUseLeader(qs, m) && qs[m].pgdir == d;
    }
  }

  lemma DirWait(s: Sys, t: int)
    requires DirInv(s) && Enabled(s, DoWait(t))
    ensures Wait(s, t).fault == NoFault && DirTable(Wait(s, t).procs, Wait(s, t).dirs)
  {
    var me := s.procs[t];
    var k := FindHarvest(s.procs, me.process, 0);
    if !HasChild(s.procs, me.process) || me.killed {
      DirGoto(s, t);
    } else if k == |s.procs| {
      assert forall i :: Valid(s.procs, i) ==> DirSlot(s.procs, s.dirs, i);
      DirKeep(s.procs, Wait(s, t).procs, s.dirs);
    } else {
      assert SlotOk(s.procs, s.nextpid, t);
      DirGoto(s, t);
      DirReap(Goto(s, t, User), k);
    }
  }

  lemma DirReap(s: Sys, k: int)
    requires DirInv(s) && Valid(s.procs, k) && s.procs[k].parent != NIL && Harvestable(s.procs, s.procs[k])
    ensures ReapGroup(s, s.procs[k].tgid, 0).fault == NoFault
    ensures DirTable(ReapGroup(s, s.procs[k].tgid, 0).procs, ReapGroup(s, s.procs[k].tgid, 0).dirs)
  {
    var ps, n, l, g := s.procs, s.nextpid, s.procs[k].process, s.procs[k].tgid;
    assert SlotOk(ps, n, k) && SlotOk(ps, n, l) && DirSlot(ps, s.dirs, l);
    forall i | Valid(ps, i)
      ensures ps[i].tgid == g <==> ps[i].process == l
      ensures ps[i].process == l ==> ps[i].state.Zombie?
    {
      HarvestGroup(ps, n, k, i);
    }
    assert InUseLeader(ps, l);
    ReapGroupSlots(s, g, 0);
    ReapGroupDirs(s, g, 0, l);
    DirRecycleGroup(ps, ReapGroup(s, g, 0).procs, n, s.dirs, l);
  }

  lemma DirJoin(s: Sys, t: int, j: int, pid: nat)
    requires DirInv(s) && IsRunning(s, t) && Valid(s.procs, j) && !Creating(s.procs[t].pc)
    ensures DirTable(JoinOn(s, t, j, pid).procs, s.dirs)
    ensures JoinOn(s, t, j, pid).dirs == s.dirs && JoinOn(s, t, j, pid).fault == NoFault
  {
    var p := s.procs[j];
    if p.state.Zombie? && p.tgid != p.pid && j != p.process {
      DirGoto(s, t);
      DirDropMember(Goto(s, t, User), j);
    } else {
      assert forall i :: Valid(s.procs, i) ==> DirSlot(s.procs, s.dirs, i);
      DirKeep(s.procs, JoinOn(s, t, j, pid).procs, s.dirs);
    }
  }

  lemma DirDropMember(s: Sys, j: int)
    requires DirInv(s) && Valid(s.procs, j) && s.procs[j].state.Zombie? && s.procs[j].process != j
    ensures DirTable(s.procs[j := Recycled(s.procs[j])], s.dirs)
  {
    var ps, qs := s.procs, s.procs[j := Recycled(s.procs[j])];
    forall i ensures DirSlot(qs, s.dirs, i) {
      assert DirSlot(ps, s.dirs, i) && SlotOk(ps, s.nextpid, i);
    }
    forall a, b ensures DirPair(qs, a, b) {
      assert DirPair(ps, a, b);
    }
    forall d | d in s.dirs ensures DirHeld(qs, d) {
      assert DirHeld(ps, d);
      var m :| InUseLeader(ps, m) && ps[m].pgdir == d;
      assert InUseLeader(qs, m) && qs[m].pgdir == d;
    }
  }

  lemma DirMakes(s: Sys, a: Step)
    requires DirInv(s) && Enabled(s, a) && Makes(a)
    ensures DirTable(Next(s, a).procs, Next(s, a).dirs) && Next(s, a).fault == NoFault
  {
    match a
    case DoAlloc(t, c) => DirAlloc(s, t, c);
    case DoAllocFail(t) => DirAllocFail(s, t);
    case DoForkFail(t) => DirForkFail(s, t);
    case DoForkSetup(t, pg) => DirForkSetup(s, t, pg);
    case DoCloneGroup(t) => DirCloneGroup(s, t);
    case DoCloneParent(t) => DirCloneParent(s, t);
    case DoCloneFinish(t) => DirCloneFinish(s, t);
  }

  lemma DirEnds(s: Sys, a: Step)
    requires DirInv(s) && Enabled(s, a) && (a.DoExit? || a.DoWait? || a.DoJoin? || a.DoJoinAgain?)
    ensures DirTable(Next(s, a).procs, Next(s, a).dirs) && Next(s, a).fault == NoFault
  {
    match a
    case DoExit(t) => DirExit(s, t);
    case DoWait(t) => DirWait(s, t);
    case DoJoin(t, pid) =>
      var j := JoinTarget(s, t, pid);
      if j != NIL { DirJoin(s, t, j, pid); }
    case DoJoinAgain(t) => DirJoin(s, t, s.procs[t].pc.target, s.procs[t].pc.pid);
  }

  lemma DirStep(s: Sys, a: Step)
    requires DirInv(s) && Enabled(s, a) && LeaderExec(s, a)
    ensures DirInv(Next(s, a))
  {
    StepKeeps(s, a);
    if Quiet(a) || a.DoExecFail? {
      DirQuiet(s, a);
    } else if Makes(a) {
      DirMakes(s, a);
    } else if a.DoExecCommit? {
      DirExecCommit(s, a.t, a.pg);
    } else if Execs(a) {
      DirExec(s, a);
    } else {
      DirEnds(s, a);
    }
  }
}
