/** Who wakes the threads that are asleep in exec and in join: over every run, a
    thread whose exit will wake them is left in their group.  join's sleeper can
    miss the end of its target nevertheless, and exactly when is said here. */
module ThreadSleepers {
  import opened Common
  import opened ProcessTable
  import opened ThreadGroups
  import opened ThreadGroupRuns

  /** A thread asleep in exec has company to wait for. */
  ghost predicate ExecWaiter(ps: seq<Proc>, t: int) {
    Valid(ps, t) && ps[t].state.Sleeping? && ps[t].pc.InExec? ==>
      && ps[t].chan == OnProc(ps[t].process)
      && exists u :: u != t && Valid(ps, u) && LiveIn(ps[u], ps[t].process)
  }

  predicate AsleepInJoin(ps: seq<Proc>, t: int) {
    Valid(ps, t) && ps[t].state.Sleeping? && ps[t].pc.InJoin?
  }

  /** Asleep in join although the target is a ZOMBIE. */
  predicate Overslept(ps: seq<Proc>, t: int) {
    AsleepInJoin(ps, t) && Valid(ps, ps[t].pc.target) && ps[ps[t].pc.target].state.Zombie?
  }

  /** A thread asleep in join waits for a thread that will exit, or for the exit of a
      killed one. */
  ghost predicate JoinWaiter(ps: seq<Proc>, t: int) {
    AsleepInJoin(ps, t) ==>
      && ps[t].chan == OnProc(ps[t].process)
      && (Overslept(ps, t) ==>
          exists u :: u != t && Valid(ps, u) && LiveIn(ps[u], ps[t].process) && ps[u].killed)
  }

  ghost predicate WaitersOk(ps: seq<Proc>) {
    forall t :: ExecWaiter(ps, t) && JoinWaiter(ps, t)
  }

  // ---- what a step does to one slot ---------------------------------------

  predicate Dozes(p: Proc) {
    p.state.Sleeping? && (p.pc.InExec? || p.pc.InJoin?)
  }

  /** a publishes slot i as a ZOMBIE, on behalf of a killed cloner. */
  predicate Stillborn(ps: seq<Proc>, a: Step, i: int) {
    && a.DoCloneFinish? && Valid(ps, a.t) && ps[a.t].state.Running? && ps[a.t].killed
    && ps[a.t].pc == CloneParent(i)
  }

  /** A live thread stays live in its group unless it exits; a ZOMBIE comes of an
      exit or of a killed clone; and only exec and join put threads to sleep there. */
  predicate SlotStep(ps: seq<Proc>, qs: seq<Proc>, a: Step, i: int)
    requires |qs| == |ps|
  {
    Valid(ps, i) ==>
      var p, q := ps[i], qs[i];
      && (Live(p) ==> a == DoExit(i) || (Live(q) && q.process == p.process && (p.killed ==> q.killed)))
      && (q.state.Zombie? ==> p.state.Zombie? || a == DoExit(i) || Stillborn(ps, a, i))
      && (Dozes(q) ==>
          || (p.state == q.state && p.pc == q.pc && p.chan == q.chan && p.process == q.process)
          || a == DoExecCheck(i) || (a.DoJoin? && a.t == i) || a == DoJoinAgain(i))
  }

  ghost predicate SlotSteps(s: Sys, a: Step)
    requires Enabled(s, a)
  {
    var ps, qs := s.procs, Next(s, a).procs;
    |qs| == |ps| && forall i :: SlotStep(ps, qs, a, i)
  }

  lemma ExitSlots(s: Sys, t: int)
    requires Inv(s) && Enabled(s, DoExit(t))
    ensures SlotSteps(s, DoExit(t))
  {
    var ps, qs := s.procs, Exit(s, t).procs;
    ExitIsStep(s, t);
    forall i ensures SlotStep(ps, qs, DoExit(t), i) {
      assert ExitRel(ps, qs, s.initproc, t, i);
    }
  }

  lemma WaitSlots(s: Sys, t: int)
    requires Inv(s) && Enabled(s, DoWait(t)) && Wait(s, t).fault == NoFault
    ensures SlotSteps(s, DoWait(t))
  {
    var ps := s.procs;
    var k := FindHarvest(ps, ps[t].process, 0);
    if HasChild(ps, ps[t].process) && !ps[t].killed && k < |ps| {
      GotoTable(s, t);
      WaitReaps(s, t, k);
      assert SlotOk(ps, s.nextpid, t);
      forall i | Valid(ps, i) && ps[i].process == ps[k].process ensures ps[i].state.Zombie? {
        HarvestZombie(ps, s.nextpid, k, i);
      }
    }
  }

  lemma ForkSlots(s: Sys, a: Step)
    requires Enabled(s, a) && (a.DoAlloc? || a.DoAllocFail? || a.DoForkFail? || a.DoForkSetup?)
    requires CreatorOk(s.procs, a.t)
    ensures SlotSteps(s, a)
  {
  }

  lemma CloneSlots(s: Sys, a: Step)
    requires Enabled(s, a) && (a.DoCloneGroup? || a.DoCloneParent? || a.DoCloneFinish?)
    requires CreatorOk(s.procs, a.t)
    ensures SlotSteps(s, a)
  {
  }

  lemma QuietSlots(s: Sys, a: Step)
    requires Enabled(s, a) && Quiet(a)
    ensures SlotSteps(s, a)
  {
  }

  lemma ExecSlots(s: Sys, a: Step)
    requires Enabled(s, a) && Execs(a)
    ensures SlotSteps(s, a)
  {
  }

  lemma JoinSlots(s: Sys, a: Step)
    requires Enabled(s, a) && (a.DoJoin? || a.DoJoinAgain?)
    ensures SlotSteps(s, a)
  {
  }

  lemma EverySlot(s: Sys, a: Step)
    requires Inv(s) && Enabled(s, a) && Next(s, a).fault == NoFault
    ensures SlotSteps(s, a)
  {
    if a.DoExit? {
      ExitSlots(s, a.t);
    } else if a.DoWait? {
      WaitSlots(s, a.t);
    } else if Makes(a) {
      assert SlotOk(s.procs, s.nextpid, a.t);
      if a.DoCloneGroup? || a.DoCloneParent? || a.DoCloneFinish? { CloneSlots(s, a); } else { ForkSlots(s, a); }
    } else if Quiet(a) {
      QuietSlots(s, a);
    } else if Execs(a) {
      ExecSlots(s, a);
    } else {
      JoinSlots(s, a);
    }
  }

  // ---- every step keeps the waiters' company ------------------------------

  /** Among the other members that are not ZOMBIEs one is live: an embryo's maker,
      if nobody else. */
  lemma Company(s: Sys, t: int)
    requires Inv(s) && Valid(s.procs, t) && Live(s.procs[t]) && !Creating(s.procs[t].pc) && OthersAlive(s.procs, t)
    ensures exists u :: u != t && Valid(s.procs, u) && LiveIn(s.procs[u], s.procs[t].process)
  {
    var ps, n := s.procs, s.nextpid;
    var i :| 0 <= i < |ps| && i != t && ps[i].tgid == ps[t].tgid && !ps[i].state.Zombie?;
    assert SlotOk(ps, n, i) && SlotOk(ps, n, t) && PairOk(ps, ps[i].process, ps[t].process);
    if ps[i].state.Embryo? {
      assert MadeBySomeone(ps, i);
      var u :| Valid(ps, u) && Creating(ps[u].pc) && ps[u].pc.np == i;
      assert SlotOk(ps, n, u);
      assert u != t && LiveIn(ps[u], ps[t].process);
    } else {
      assert LiveIn(ps[i], ps[t].process);
    }
  }

  /** An exit wakes every thread that sleeps on its group. */
  lemma ExitWakesGroup(s: Sys, u: int, t: int)
    requires Inv(s) && Enabled(s, DoExit(u)) && Valid(s.procs, t)
    ensures |Exit(s, u).procs| == |s.procs|
    ensures Exit(s, u).procs[t].state.Sleeping? ==> Exit(s, u).procs[t].chan != OnProc(s.procs[u].process)
  {
    ExitIsStep(s, u);
    assert ExitRel(s.procs, Exit(s, u).procs, s.initproc, u, t);
  }

  lemma ExecWaiterStep(s: Sys, a: Step, t: int)
    requires Inv(s) && Enabled(s, a) && SlotSteps(s, a) && ExecWaiter(s.procs, t)
    ensures ExecWaiter(Next(s, a).procs, t)
  {
    var ps, qs := s.procs, Next(s, a).procs;
    assert SlotStep(ps, qs, a, t);
    if Valid(ps, t) && qs[t].state.Sleeping? && qs[t].pc.InExec? {
      if a == DoExecCheck(t) { Company(s, t); }
      var u :| u != t && Valid(ps, u) && LiveIn(ps[u], ps[t].process);
      assert SlotStep(ps, qs, a, u);
      if a == DoExit(u) { ExitWakesGroup(s, u, t); }
      assert LiveIn(qs[u], qs[t].process);
    }
  }

  /** How a sleeper in join comes to have a ZOMBIE for its target. */
  lemma Oversleeps(s: Sys, a: Step, t: int)
    requires Inv(s) && Enabled(s, a) && SlotSteps(s, a) && JoinWaiter(s.procs, t) && Overslept(Next(s, a).procs, t)
    ensures AsleepInJoin(s.procs, t) && s.procs[t].pc == Next(s, a).procs[t].pc
    ensures Overslept(s.procs, t) || Stillborn(s.procs, a, s.procs[t].pc.target)
  {
    var ps, qs := s.procs, Next(s, a).procs;
    assert SlotStep(ps, qs, a, t);
    var j := qs[t].pc.target;
    assert SlotStep(ps, qs, a, j) && SlotOk(ps, s.nextpid, t);
    if a == DoExit(j) { ExitWakesGroup(s, j, t); }
  }

  lemma JoinWaiterStep(s: Sys, a: Step, t: int)
    requires Inv(s) && Enabled(s, a) && SlotSteps(s, a) && JoinWaiter(s.procs, t)
    ensures JoinWaiter(Next(s, a).procs, t)
  {
    var qs := Next(s, a).procs;
    if Overslept(qs, t) {
      Oversleeps(s, a, t);
      var u := Killed(s, a, t);
      StaysToWake(s, a, t, u);
      assert LiveIn(qs[u], qs[t].process) && qs[u].killed;
    }
    assert SlotStep(s.procs, qs, a, t);
  }

  lemma StaysToWake(s: Sys, a: Step, t: int, u: int)
    requires Inv(s) && Enabled(s, a) && SlotSteps(s, a) && AsleepInJoin(s.procs, t) && JoinWaiter(s.procs, t)
    requires AsleepInJoin(Next(s, a).procs, t)
    requires u != t && Valid(s.procs, u) && LiveIn(s.procs[u], s.procs[t].process) && s.procs[u].killed
    ensures LiveIn(Next(s, a).procs[u], Next(s, a).procs[t].process) && Next(s, a).procs[u].killed
  {
    var ps, qs := s.procs, Next(s, a).procs;
    assert SlotStep(ps, qs, a, u) && SlotStep(ps, qs, a, t);
    if a == DoExit(u) { ExitWakesGroup(s, u, t); }
  }

  /** The killed thread that has published, or is publishing, the sleeper's target. */
  lemma Killed(s: Sys, a: Step, t: int) returns (u: int)
    requires Inv(s) && JoinWaiter(s.procs, t) && AsleepInJoin(s.procs, t)
    requires Overslept(s.procs, t) || Stillborn(s.procs, a, s.procs[t].pc.target)
    ensures u != t && Valid(s.procs, u) && LiveIn(s.procs[u], s.procs[t].process) && s.procs[u].killed
  {
    var ps := s.procs;
    if Overslept(ps, t) {
      u :| u != t && Valid(ps, u) && LiveIn(ps[u], ps[t].process) && ps[u].killed;
    } else {
      u := a.t;
      assert SlotOk(ps, s.nextpid, u) && SlotOk(ps, s.nextpid, t);
    }
  }

  lemma WaitersStep(s: Sys, a: Step)
    requires Inv(s) && Enabled(s, a) && WaitersOk(s.procs) && Next(s, a).fault == NoFault
    ensures WaitersOk(Next(s, a).procs)
  {
    EverySlot(s, a);
    forall t ensures ExecWaiter(Next(s, a).procs, t) && JoinWaiter(Next(s, a).procs, t) {
      assert ExecWaiter(s.procs, t) && JoinWaiter(s.procs, t);
      ExecWaiterStep(s, a, t);
      JoinWaiterStep(s, a, t);
    }
  }

  lemma {:induction false} WaitersRun(s: Sys, steps: seq<Step>, s': Sys)
    requires s.fault == NoFault ==> Inv(s) && WaitersOk(s.procs)
    requires Run(s, steps, s')
    ensures s'.fault == NoFault ==> Inv(s') && WaitersOk(s'.procs)
    decreases |steps|
  {
    if steps != [] {
      StepKeeps(s, steps[0]);
      if Next(s, steps[0]).fault == NoFault {
        WaitersStep(s, steps[0]);
      }
      WaitersRun(Next(s, steps[0]), steps[1..], s');
    }
  }

  lemma BootWaiters(pg: nat)
    ensures Inv(Boot(pg)) && WaitersOk(Boot(pg).procs)
  {
    BootInv(pg);
    var ps := Boot(pg).procs;
    assert forall i :: 0 <= i < |ps| ==> !ps[i].state.Sleeping?;
  }

  // ---- the theorems -------------------------------------------------------

  /** A thread that exec has put to sleep is not alone in its group: another live
      thread is there, it is marked as killed, and its exit wakes the sleeper. */
  lemma ExecSleeperHasCompany(pg: nat, steps: seq<Step>, s: Sys, t: int)
    requires Run(Boot(pg), steps, s) && s.fault == NoFault
    requires Valid(s.procs, t) && s.procs[t].state.Sleeping? && s.procs[t].pc.InExec?
    ensures exists u :: u != t && Valid(s.procs, u) && LiveIn(s.procs[u], s.procs[t].process) && s.procs[u].killed
    ensures forall u :: Enabled(s, DoExit(u)) && s.procs[u].process == s.procs[t].process ==>
      |Exit(s, u).procs| == |s.procs| && Exit(s, u).procs[t].state.Runnable?
  {
    BootWaiters(pg);
    WaitersRun(Boot(pg), steps, s);
    var ps := s.procs;
    assert ExecWaiter(ps, t);
    var u :| u != t && Valid(ps, u) && LiveIn(ps[u], ps[t].process);
    assert PairOk(ps, t, u);
    forall u | Enabled(s, DoExit(u)) && ps[u].process == ps[t].process
      ensures |Exit(s, u).procs| == |ps| && Exit(s, u).procs[t].state.Runnable?
    {
      ExitIsStep(s, u);
      assert ExitRel(ps, Exit(s, u).procs, s.initproc, u, t);
    }
  }

  /** A thread asleep in join whose target is a ZOMBIE will be woken by another
      thread of its group, which is killed and so on its way to exit. */
  lemma JoinSleeperWoken(pg: nat, steps: seq<Step>, s: Sys, t: int)
    requires Run(Boot(pg), steps, s) && s.fault == NoFault && AsleepInJoin(s.procs, t)
    ensures Overslept(s.procs, t) ==>
      exists u :: u != t && Valid(s.procs, u) && LiveIn(s.procs[u], s.procs[t].process) && s.procs[u].killed
    ensures forall u :: Enabled(s, DoExit(u)) && s.procs[u].process == s.procs[t].process ==>
      |Exit(s, u).procs| == |s.procs| && !Exit(s, u).procs[t].state.Sleeping?
  {
    BootWaiters(pg);
    WaitersRun(Boot(pg), steps, s);
    assert JoinWaiter(s.procs, t);
    forall u | Enabled(s, DoExit(u)) && s.procs[u].process == s.procs[t].process
      ensures |Exit(s, u).procs| == |s.procs| && !Exit(s, u).procs[t].state.Sleeping?
    {
      ExitIsStep(s, u);
      assert ExitRel(s.procs, Exit(s, u).procs, s.initproc, u, t);
    }
  }

  ghost predicate JoinersAwake(s: Sys) {
    forall t :: !Overslept(s.procs, t)
  }

  /** A killed cloner is about to publish a slot that somebody joins. */
  ghost predicate LosesJoiner(s: Sys, a: Step) {
    exists t :: AsleepInJoin(s.procs, t) && Stillborn(s.procs, a, s.procs[t].pc.target)
  }

  lemma JoinStepExactly(s: Sys, a: Step)
    requires Inv(s) && Enabled(s, a) && WaitersOk(s.procs) && Next(s, a).fault == NoFault && JoinersAwake(s)
    ensures JoinersAwake(Next(s, a)) <==> !LosesJoiner(s, a)
  {
    EverySlot(s, a);
    if LosesJoiner(s, a) {
      var t :| AsleepInJoin(s.procs, t) && Stillborn(s.procs, a, s.procs[t].pc.target);
      assert SlotOk(s.procs, s.nextpid, t) && SlotOk(s.procs, s.nextpid, a.t);
      assert Overslept(Next(s, a).procs, t);
    } else {
      forall t ensures !Overslept(Next(s, a).procs, t) {
        assert JoinWaiter(s.procs, t);
        if Overslept(Next(s, a).procs, t) { Oversleeps(s, a, t); }
      }
    }
  }

  ghost predicate AlwaysAwake(s: Sys, steps: seq<Step>)
    decreases |steps|
  {
    && (s.fault == NoFault ==> JoinersAwake(s))
    && (steps != [] && Enabled(s, steps[0]) ==> AlwaysAwake(Next(s, steps[0]), steps[1..]))
  }

  ghost predicate NeverLosesJoiner(s: Sys, steps: seq<Step>)
    decreases |steps|
  {
    steps != [] && Enabled(s, steps[0]) ==>
      !LosesJoiner(s, steps[0]) && NeverLosesJoiner(Next(s, steps[0]), steps[1..])
  }

  lemma {:induction false} AwakeFrom(s: Sys, steps: seq<Step>, s': Sys)
    requires Run(s, steps, s')
    requires s.fault == NoFault ==> Inv(s) && WaitersOk(s.procs) && JoinersAwake(s)
    ensures AlwaysAwake(s, steps) <==> NeverLosesJoiner(s, steps)
    decreases |steps|
  {
    if steps != [] {
      var a, s1 := steps[0], Next(s, steps[0]);
      StepKeeps(s, a);
      if s1.fault != NoFault {
        assert !LosesJoiner(s, a);
        AwakeFrom(s1, steps[1..], s');
      } else {
        WaitersStep(s, a);
        JoinStepExactly(s, a);
        if !LosesJoiner(s, a) { AwakeFrom(s1, steps[1..], s'); }
      }
    }
  }

  /** No thread sleeps in join beside a target that is a ZOMBIE, throughout a run,
      if and only if no killed cloner published a slot that somebody had joined. */
  lemma JoinAwakeExactly(pg: nat, steps: seq<Step>, s: Sys)
    requires Run(Boot(pg), steps, s)
    ensures AlwaysAwake(Boot(pg), steps) <==> NeverLosesJoiner(Boot(pg), steps)
  {
    BootWaiters(pg);
    var ps := Boot(pg).procs;
    assert forall i :: 0 <= i < |ps| ==> !ps[i].state.Sleeping?;
    AwakeFrom(Boot(pg), steps, s);
  }

  // ---- a run in which a joiner oversleeps ---------------------------------

  /** A table whose first four slots are in use: init, a leader and its clone, and
      the slot that this one is cloning. */
  function Four(q: Proc, r: Proc, e: Proc): Sys {
    Sys([Init(User), q, r, e] + seq(NPROC - 4, _ => Empty()), 5, 0, {1, 2}, NoFault)
  }

  function Second(state: State, parent: int): Proc {
    Proc(state, 4, 2, 1, parent, NoChan, false, 0, 2, User)
  }

  /** The leader, asleep in join for the slot that is being made. */
  function Joiner(): Proc {
    Proc(Sleeping, 2, 2, 1, 0, OnProc(1), false, 2, 2, InJoin(3, 4))
  }

  lemma SecondClone(e: Proc)
    requires e == Proc(Embryo, 4, 0, NIL, NIL, NoChan, false, 0, 0, User)
    ensures Takes(Cloned(), DoAlloc(2, true),
                  Four(Leader(Running, false, 2, User), Member(Running, 0, CloneAlloc(3)), e))
    ensures Takes(Four(Leader(Running, false, 2, User), Member(Running, 0, CloneAlloc(3)), e), DoCloneGroup(2),
                  Four(Leader(Running, false, 2, User), Member(Running, 0, CloneGroup(3)), Second(Embryo, NIL)))
  {
    assert FindUnused(Cloned().procs, 0) == 3;
  }

  lemma SecondParent()
    ensures Takes(Four(Leader(Running, false, 2, User), Member(Running, 0, CloneGroup(3)), Second(Embryo, NIL)),
                  DoCloneParent(2),
                  Four(Leader(Running, false, 2, User), Member(Running, 0, CloneParent(3)), Second(Embryo, 0)))
    ensures Takes(Four(Leader(Running, false, 2, User), Member(Running, 0, CloneParent(3)), Second(Embryo, 0)),
                  DoJoin(1, 4), Four(Joiner(), Member(Running, 0, CloneParent(3)), Second(Embryo, 0)))
  {
    assert FindPid(Four(Leader(Running, false, 2, User), Member(Running, 0, CloneParent(3)), Second(Embryo, 0)).procs,
                   4, 0) == 3;
  }

  lemma ClonerKilled()
    ensures Takes(Four(Joiner(), Member(Running, 0, CloneParent(3)), Second(Embryo, 0)), DoKill(3),
                  Four(Joiner(), Member(Running, 0, CloneParent(3)).(killed := true), Second(Embryo, 0)))
    ensures Takes(Four(Joiner(), Member(Running, 0, CloneParent(3)).(killed := true), Second(Embryo, 0)),
                  DoCloneFinish(2),
                  Four(Joiner(), Member(Running, 0, User).(killed := true), Second(Zombie, 0)))
  {
    assert FindPid(Four(Joiner(), Member(Running, 0, CloneParent(3)), Second(Embryo, 0)).procs, 3, 0) == 2;
  }

  lemma OversleepSteps() returns (steps: seq<Step>)
    ensures Run(Cloned(), steps, Four(Joiner(), Member(Running, 0, User).(killed := true), Second(Zombie, 0)))
  {
    var e := Proc(Embryo, 4, 0, NIL, NIL, NoChan, false, 0, 0, User);
    var l := Leader(Running, false, 2, User);
    var s1 := Four(l, Member(Running, 0, CloneAlloc(3)), e);
    var s2 := Four(l, Member(Running, 0, CloneGroup(3)), Second(Embryo, NIL));
    var s3 := Four(l, Member(Running, 0, CloneParent(3)), Second(Embryo, 0));
    var s4 := Four(Joiner(), Member(Running, 0, CloneParent(3)), Second(Embryo, 0));
    var s5 := Four(Joiner(), Member(Running, 0, CloneParent(3)).(killed := true), Second(Embryo, 0));
    var s6 := Four(Joiner(), Member(Running, 0, User).(killed := true), Second(Zombie, 0));
    SecondClone(e);
    SecondParent();
    ClonerKilled();
    steps := [];
    Before(s5, DoCloneFinish(2), s6, steps, s6);
    steps := [DoCloneFinish(2)] + steps;
    Before(s4, DoKill(3), s5, steps, s6);
    steps := [DoKill(3)] + steps;
    Before(s3, DoJoin(1, 4), s4, steps, s6);
    steps := [DoJoin(1, 4)] + steps;
    Before(s2, DoCloneParent(2), s3, steps, s6);
    steps := [DoCloneParent(2)] + steps;
    Before(s1, DoCloneGroup(2), s2, steps, s6);
    steps := [DoCloneGroup(2)] + steps;
    Before(Cloned(), DoAlloc(2, true), s1, steps, s6);
    steps := [DoAlloc(2, true)] + steps;
  }

  /** A thread joins a slot that its sibling is still cloning; the sibling is killed
      and publishes the slot as a ZOMBIE without a wakeup. */
  lemma JoinerOversleeps() returns (steps: seq<Step>, s: Sys)
    ensures Run(Boot(1), steps, s) && s.fault == NoFault && Overslept(s.procs, 1)
  {
    var fork := ForkRun();
    var clone := CloneRun();
    var more := OversleepSteps();
    s := Four(Joiner(), Member(Running, 0, User).(killed := true), Second(Zombie, 0));
    RunThen(Boot(1), fork, Forked(), clone, Cloned());
    RunThen(Boot(1), fork + clone, Cloned(), more, s);
    steps := fork + clone + more;
  }
}
