/** ptable as proc.c and exec.c work on it: an array of slots that each critical
    section scans and updates in place.  Every method is proved to take the
    table from its old abstract state to the one the step function of
    ProcessTable gives, so what is proved of the state machine holds of it. */
module KernelTable {
  import opened Common
  import opened ProcessTable
  import ThreadGroups

  datatype WaitOutcome = WaitFailed | WaitSlept | WaitReaped(tgid: nat) | WaitPanicked
  datatype JoinOutcome = JoinFailed | JoinSlept | Joined(pid: nat)

  predicate ChildOf(ps: seq<Proc>, leader: int, i: int) {
    Valid(ps, i) && ps[i].parent == leader
  }

  /** Child k is the first whose group has no thread left. */
  ghost predicate FirstEmpty(ps: seq<Proc>, leader: int, k: int) {
    && ChildOf(ps, leader, k) && Harvestable(ps, ps[k])
    && forall i :: 0 <= i < k && ChildOf(ps, leader, i) ==> !Harvestable(ps, ps[i])
  }

  /** wait by t gave back the ZOMBIEs of the group and nothing else. */
  ghost predicate GivenBack(ps: seq<Proc>, qs: seq<Proc>, t: int, tgid: nat) {
    && |qs| == |ps|
    && forall i :: Valid(ps, i) ==>
         if ps[i].tgid == tgid then ps[i].state.Zombie? && Blank(qs[i]) else i != t ==> qs[i] == ps[i]
  }

  /** What a pass of wait by t returns, by the table it found and the one it left. */
  ghost predicate WaitResult(ps: seq<Proc>, qs: seq<Proc>, t: int, r: WaitOutcome)
    requires Valid(ps, t)
  {
    var me := ps[t];
    match r
    case WaitFailed =>
      && (me.killed || forall i :: !ChildOf(ps, me.process, i)) && qs == ps[t := me.(chan := NoChan, pc := User)]
    case WaitSlept =>
      && !me.killed && (exists i :: ChildOf(ps, me.process, i))
      && (forall i :: ChildOf(ps, me.process, i) ==> !Harvestable(ps, ps[i]))
      && qs == ps[t := me.(state := Sleeping, chan := OnProc(me.process), pc := InWait)]
    case WaitReaped(tgid) =>
      && !me.killed && GivenBack(ps, qs, t, tgid)
      && exists k :: FirstEmpty(ps, me.process, k) && ps[k].tgid == tgid
    case WaitPanicked => !me.killed && exists k :: FirstEmpty(ps, me.process, k)
  }

  lemma ReapedBack(s: Sys, t: int, tgid: nat)
    requires Valid(s.procs, t) && ReapGroup(Goto(s, t, User), tgid, 0).fault == NoFault
    ensures GivenBack(s.procs, ReapGroup(Goto(s, t, User), tgid, 0).procs, t, tgid)
  {
    var s1 := Goto(s, t, User);
    ThreadGroups.ReapGroupBack(s1, tgid, 0);
    forall i | Valid(s.procs, i)
      ensures if s.procs[i].tgid == tgid then s.procs[i].state.Zombie? && Blank(ReapGroup(s1, tgid, 0).procs[i])
              else i != t ==> ReapGroup(s1, tgid, 0).procs[i] == s.procs[i]
    {
      assert s1.procs[i].tgid == s.procs[i].tgid && s1.procs[i].state == s.procs[i].state;
    }
  }

  class Table {
    const slots: array<Proc>
    var nextpid: nat
    var initproc: int
    var dirs: set<nat>
    var fault: Fault

    ghost function View(): Sys
      reads this, slots
    {
      Sys(slots[..], nextpid, initproc, dirs, fault)
    }

    /** userinit. */
    constructor (pg: nat)
      ensures View() == Boot(pg) && fresh(slots)
    {
      var empty := Proc(Unused, 0, 0, NIL, NIL, NoChan, false, 0, 0, User);
      var first := Proc(Runnable, 1, 1, 0, NIL, NoChan, false, 1, pg, User);
      slots := new Proc[NPROC](i => if i == 0 then first else empty);
      nextpid, initproc, dirs, fault := 2, 0, {pg}, NoFault;
      new;
      assert slots[..] == Boot(pg).procs;
    }

    method WakeAll(c: Chan)
      modifies slots
      ensures slots[..] == Wakeup1(old(slots[..]), c)
    {
      for k := 0 to slots.Length
        invariant forall i :: 0 <= i < k ==> slots[i] == Woken(old(slots[..])[i], c)
        invariant forall i :: k <= i < slots.Length ==> slots[i] == old(slots[..])[i]
      {
        if slots[k].state.Sleeping? && slots[k].chan == c {
          slots[k] := slots[k].(state := Runnable);
        }
      }
      assert slots[..] == Wakeup1(old(slots[..]), c);
    }

    method KillPid(pid: nat) returns (found: bool)
      modifies slots
      ensures View() == Kill(old(View()), pid)
      ensures found <==> exists i :: 0 <= i < slots.Length && old(slots[..])[i].pid == pid
    {
      var k := 0;
      while k < slots.Length
        invariant 0 <= k <= slots.Length && slots[..] == old(slots[..])
        invariant FindPid(slots[..], pid, k) == FindPid(slots[..], pid, 0)
        invariant forall i :: 0 <= i < k ==> slots[i].pid != pid
      {
        if slots[k].pid == pid {
          slots[k] := slots[k].(killed := true);
          if slots[k].state.Sleeping? {
            slots[k] := slots[k].(state := Runnable);
          }
          assert slots[..] == Kill(old(View()), pid).procs;
          assert old(slots[..])[k].pid == pid;
          return true;
        }
        k := k + 1;
      }
      return false;
    }

    /** allocproc up to the release of the lock, called by thread t. */
    method AllocProc(t: int, clone: bool) returns (np: int)
      requires 0 <= t < slots.Length
      modifies this, slots
      ensures View() == Alloc(old(View()), t, clone)
      ensures np == NIL || (0 <= np < slots.Length && old(slots[..])[np].state.Unused?)
      ensures np == NIL <==> forall i :: 0 <= i < slots.Length ==> !old(slots[..])[i].state.Unused?
    {
      var k := 0;
      while k < slots.Length
        invariant 0 <= k <= slots.Length && slots[..] == old(slots[..]) && nextpid == old(nextpid)
        invariant initproc == old(initproc) && dirs == old(dirs) && fault == old(fault)
        invariant FindUnused(slots[..], k) == FindUnused(slots[..], 0)
        invariant forall i :: 0 <= i < k ==> !slots[i].state.Unused?
      {
        if slots[k].state.Unused? {
          slots[k] := slots[k].(state := Embryo, pid := nextpid, pc := User);
          nextpid := nextpid + 1;
          slots[t] := slots[t].(pc := if clone then CloneAlloc(k) else ForkAlloc(k));
          assert slots[..] == Alloc(old(View()), t, clone).procs;
          assert old(slots[..])[k].state.Unused?;
          return k;
        }
        k := k + 1;
      }
      return NIL;
    }

    /** The locked end of clone. */
    method PublishClone(t: int, np: int)
      requires 0 <= t < slots.Length && 0 <= np < slots.Length && 0 <= slots[t].process < slots.Length
      modifies slots
      ensures View() == CloneFinish(old(View()), t, np)
    {
      var l := slots[t].process;
      if slots[t].killed {
        slots[np] := slots[np].(state := Zombie);
      } else {
        slots[np] := slots[np].(state := Runnable);
        slots[l] := slots[l].(threadcount := slots[l].threadcount + 1);
      }
      slots[t] := slots[t].(pc := User);
      assert slots[..] == CloneFinish(old(View()), t, np).procs;
    }

    /** The locked end of exit. */
    method ExitThread(t: int)
      requires 0 <= t < slots.Length && 0 <= slots[t].process < slots.Length
      modifies slots
      ensures View() == Exit(old(View()), t)
    {
      var me := slots[t];
      WakeAll(OnProc(me.parent));
      WakeAll(OnProc(me.process));
      ghost var p1 := slots[..];
      slots[me.process] := slots[me.process].(threadcount := slots[me.process].threadcount - 1);
      ghost var p2 := slots[..];
      assert p2 == p1[me.process := p1[me.process].(threadcount := p1[me.process].threadcount - 1)];
      var k := 0;
      while k < slots.Length
        invariant 0 <= k <= slots.Length
        invariant PassChildren(slots[..], t, initproc, k) == PassChildren(p2, t, initproc, 0)
      {
        ghost var ps := slots[..];
        if slots[k].parent == t {
          slots[k] := slots[k].(parent := initproc);
          assert slots[..] == ps[k := Reparented(ps[k], t, initproc)];
          if slots[k].state.Zombie? {
            WakeAll(OnProc(initproc));
          }
        } else {
          assert ps == ps[k := Reparented(ps[k], t, initproc)];
        }
        k := k + 1;
      }
      ghost var p3 := slots[..];
      slots[t] := slots[t].(state := Zombie);
      assert slots[..] == p3[t := p3[t].(state := Zombie)];
    }

    /** wait's reaping loop. */
    method Reap(tgid: nat)
      requires fault == NoFault
      modifies this`dirs, this`fault, slots
      ensures View() == ReapGroup(old(View()), tgid, 0)
    {
      var k := 0;
      while k < slots.Length
        invariant 0 <= k <= slots.Length && fault == NoFault
        invariant ReapGroup(View(), tgid, k) == ReapGroup(old(View()), tgid, 0)
      {
        var p := slots[k];
        if p.tgid == tgid {
          if !p.state.Zombie? {
            fault := PanicUndead;
            return;
          }
          ghost var before := View();
          if p.pid == p.tgid && p.process == k {
            if p.pgdir !in dirs {
              fault := BadFreevm;
              return;
            }
            dirs := dirs - {p.pgdir};
          }
          slots[k] := Recycled(p);
          assert slots[..] == before.procs[k := Recycled(p)];
        }
        k := k + 1;
      }
    }

    /** wait's scan for a child whose group has no thread left. */
    method WaitScan(leader: int) returns (havekids: bool, k: nat)
      ensures havekids <==> exists i :: ChildOf(slots[..], leader, i)
      ensures k == FindHarvest(slots[..], leader, 0)
      ensures if k < slots.Length then FirstEmpty(slots[..], leader, k) && havekids
              else k == slots.Length && forall i :: ChildOf(slots[..], leader, i) ==> !Harvestable(slots[..], slots[i])
    {
      havekids, k := false, 0;
      var found := false;
      while k < slots.Length && !found
        invariant 0 <= k <= slots.Length
        invariant found ==> k < slots.Length && ChildOf(slots[..], leader, k) && Harvestable(slots[..], slots[k])
        invariant havekids <==> found || exists i :: 0 <= i < k && ChildOf(slots[..], leader, i)
        invariant FindHarvest(slots[..], leader, k) == FindHarvest(slots[..], leader, 0)
        decreases slots.Length - k, !found
      {
        if slots[k].parent == leader {
          havekids := true;
          assert ChildOf(slots[..], leader, k);
          found := Harvestable(slots[..], slots[k]);
        }
        if !found {
          k := k + 1;
        }
      }
    }

    /** One pass of wait's loop, from the scan to its outcome: failed without a child
        or when killed, asleep while every child group has threads, and else the
        first one that has none is given back and its id returned. */
    method WaitPass(t: int) returns (r: WaitOutcome)
      requires 0 <= t < slots.Length && fault == NoFault
      modifies this`dirs, this`fault, slots
      ensures View() == Wait(old(View()), t)
      ensures r.WaitPanicked? <==> fault != NoFault
      ensures WaitResult(old(slots[..]), slots[..], t, r)
    {
      var leader := slots[t].process;
      var havekids, k := WaitScan(leader);
      ghost var s0 := View();
      assert havekids <==> HasChild(s0.procs, leader) by {
        if i :| ChildOf(s0.procs, leader, i) { assert s0.procs[i].parent == leader; }
        if i :| 0 <= i < |s0.procs| && s0.procs[i].parent == leader { assert ChildOf(s0.procs, leader, i); }
      }
      if !havekids || slots[t].killed {
        slots[t] := slots[t].(chan := NoChan, pc := User);
        assert View() == Goto(s0, t, User);
        return WaitFailed;
      }
      if k == slots.Length {
        slots[t] := slots[t].(state := Sleeping, chan := OnProc(leader), pc := InWait);
        assert View() == SleepOn(s0, t, OnProc(leader), InWait);
        return WaitSlept;
      }
      var tgid := slots[k].tgid;
      slots[t] := slots[t].(chan := NoChan, pc := User);
      ghost var s1 := View();
      assert s1 == Goto(s0, t, User);
      Reap(tgid);
      if fault == NoFault {
        ReapedBack(s0, t, tgid);
        return WaitReaped(tgid);
      }
      return WaitPanicked;
    }

    /** join from the point where it looks at its target's state. */
    method JoinPass(t: int, j: int, pid: nat) returns (r: JoinOutcome)
      requires 0 <= t < slots.Length && 0 <= j < slots.Length
      modifies slots
      ensures View() == JoinOn(old(View()), t, j, pid)
      ensures r.Joined? <==> old(slots[..])[j].state.Zombie?
      ensures r.Joined? ==> r.pid == pid
      ensures r.JoinSlept? <==> !old(slots[..])[j].state.Zombie? && !old(slots[..])[t].killed
    {
      ghost var s0 := View();
      if !slots[j].state.Zombie? {
        if slots[t].killed {
          slots[t] := slots[t].(chan := NoChan, pc := User);
          assert View() == Goto(s0, t, User);
          return JoinFailed;
        }
        slots[t] := slots[t].(state := Sleeping, chan := OnProc(slots[t].process), pc := InJoin(j, pid));
        assert View() == SleepOn(s0, t, OnProc(s0.procs[t].process), InJoin(j, pid));
        return JoinSlept;
      }
      var reap := slots[j].tgid != slots[j].pid && j != slots[j].process;
      slots[t] := slots[t].(chan := NoChan, pc := User);
      ghost var s1 := View();
      assert s1 == Goto(s0, t, User);
      if reap {
        slots[j] := Recycled(slots[j]);
        assert slots[..] == s1.procs[j := Recycled(s1.procs[j])];
      }
      return Joined(pid);
    }

    /** join's search for its target. */
    method JoinFind(t: int, pid: nat) returns (j: int)
      requires 0 <= t < slots.Length
      ensures j == JoinTarget(View(), t, pid)
    {
      var k := 0;
      while k < slots.Length
        invariant 0 <= k <= slots.Length
        invariant FindPid(slots[..], pid, k) == FindPid(slots[..], pid, 0)
      {
        if slots[k].pid == pid {
          if slots[k].tgid == slots[t].tgid && slots[k].process == slots[t].process {
            return k;
          }
          return NIL;
        }
        k := k + 1;
      }
      return NIL;
    }

    /** exec's first critical section: give up if killed, else mark the others. */
    method ExecMark(t: int) returns (passed: bool)
      requires 0 <= t < slots.Length
      modifies slots
      ensures View() == ExecStart(old(View()), t)
      ensures passed <==> !old(slots[..])[t].killed
    {
      var me := slots[t];
      if me.killed {
        return false;
      }
      ghost var ps := slots[..];
      for k := 0 to slots.Length
        invariant forall i :: 0 <= i < k ==> slots[i] == Marked(ps[i], me)
        invariant forall i :: k <= i < slots.Length ==> slots[i] == ps[i]
      {
        if slots[k].tgid == me.tgid && slots[k].pid != me.pid {
          slots[k] := slots[k].(killed := true);
          if slots[k].state.Sleeping? {
            slots[k] := slots[k].(state := Runnable);
          }
        }
      }
      slots[t] := slots[t].(pc := InExec);
      assert slots[..] == ExecStart(old(View()), t).procs;
      return true;
    }

    /** One pass of exec's waiting loop. */
    method ExecPass(t: int) returns (alone: bool)
      requires 0 <= t < slots.Length
      modifies slots
      ensures View() == ExecCheck(old(View()), t)
      ensures alone <==> !OthersAlive(old(slots[..]), t)
    {
      ghost var s0 := View();
      var alive, k := false, 0;
      while k < slots.Length && !alive
        invariant 0 <= k <= slots.Length && View() == s0
        invariant alive ==> OthersAlive(slots[..], t)
        invariant !alive ==>
          forall i :: 0 <= i < k && i != t && slots[i].tgid == slots[t].tgid ==> slots[i].state.Zombie?
        decreases slots.Length - k, !alive
      {
        if slots[k].tgid == slots[t].tgid && k != t && !slots[k].state.Zombie? {
          alive := true;
          assert slots[..][k].tgid == slots[..][t].tgid;
        } else {
          k := k + 1;
        }
      }
      assert alive <==> OthersAlive(slots[..], t);
      if alive {
        slots[t] := slots[t].(state := Sleeping, chan := OnProc(slots[t].process), pc := InExec);
        assert View() == SleepOn(s0, t, OnProc(s0.procs[t].process), InExec);
        return false;
      }
      slots[t] := slots[t].(chan := NoChan, pc := ExecAlone);
      assert View() == Goto(s0, t, ExecAlone);
      return true;
    }

    /** exec takes the group over, without the lock. */
    method ExecTakeOver(t: int)
      requires 0 <= t < slots.Length && 0 <= slots[t].process < slots.Length
      modifies slots
      ensures View() == ExecTake(old(View()), t)
    {
      var l := slots[t].process;
      slots[l] := slots[l].(pid := slots[t].pid);
      slots[t] := slots[t].(pid := slots[t].tgid);
      slots[l] := slots[l].(threadcount := 1);
      slots[t] := slots[t].(pc := ExecLoad);
      assert slots[..] == ExecTake(old(View()), t).procs;
    }
  }
}
