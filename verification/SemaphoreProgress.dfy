/** What the semaphores do in the end: the guard is free whenever nobody holds it,
    every thread in a call can go on or waits for one that can, and when all have
    come to rest as many sem_down calls have returned as could.  The counts that
    this is said with are those of the steps taken. */
module SemaphoreProgress {
  import opened Common
  import opened Semaphores

  // ---- the guard ----------------------------------------------------------

  ghost predicate Held(y: Sys, s: SemId) {
    exists t :: t in y.threads && Holds(y.threads[t].pc, s)
  }

  ghost predicate GuardsHeld(y: Sys) {
    forall s :: s in y.sems && y.sems[s].guard ==> Held(y, s)
  }

  lemma HeldStep(y: Sys, a: Step, s: SemId)
    requires Enabled(y, a) && s in y.sems && (y.sems[s].guard ==> Held(y, s))
    ensures s in Next(y, a).sems && (Next(y, a).sems[s].guard ==> Held(Next(y, a), s))
  {
    var y' := Next(y, a);
    if y'.sems[s].guard {
      if a.TakeGuard? && y.threads[a.t].pc.s == s {
        assert a.t in y'.threads && Holds(y'.threads[a.t].pc, s);
      } else {
        var t :| t in y.threads && Holds(y.threads[t].pc, s);
        assert t in y'.threads && Holds(y'.threads[t].pc, s);
      }
    }
  }

  lemma {:induction false} HeldRun(y: Sys, steps: seq<Step>, y': Sys)
    requires GuardsHeld(y) && Run(y, steps, y')
    ensures GuardsHeld(y')
    decreases |steps|
  {
    if steps != [] {
      var y1 := Next(y, steps[0]);
      forall s | s in y1.sems && y1.sems[s].guard ensures Held(y1, s) {
        assert s in y.sems;
        HeldStep(y, steps[0], s);
      }
      HeldRun(y1, steps[1..], y');
    }
  }

  /** In every state of every run a guard is set if and only if a thread holds it,
      and it is then one thread. */
  lemma GuardExactly(counts: map<SemId, int>, steps: seq<Step>, y: Sys, s: SemId)
    requires forall r :: r in counts ==> counts[r] >= 0
    requires Run(Start(counts), steps, y) && s in y.sems
    ensures y.sems[s].guard <==> Held(y, s)
    ensures forall t, u ::
      t in y.threads && u in y.threads && Holds(y.threads[t].pc, s) && Holds(y.threads[u].pc, s) ==> t == u
  {
    HeldRun(Start(counts), steps, y);
    StartInv(counts);
    RunKeeps(Start(counts), steps, y);
    if Held(y, s) {
      var t :| t in y.threads && Holds(y.threads[t].pc, s);
      assert GuardOk(y, t, s);
    }
    forall t, u | t in y.threads && u in y.threads && Holds(y.threads[t].pc, s) && Holds(y.threads[u].pc, s)
      ensures t == u
    {
      assert GuardPair(y, t, u, s);
    }
  }

  // ---- going on -----------------------------------------------------------

  /** The next step of a thread that is in a call and not asleep. */
  function NextOf(t: Tid, pc: Pc): Step
    requires !pc.Idle? && !pc.Asleep?
  {
    match pc
    case DownEntry(_) => TakeGuard(t)
    case UpEntry(_) => TakeGuard(t)
    case DownGuard(_) => Body(t)
    case UpGuard(_) => Body(t)
    case UpUnpark(_, _) => Unpark(t)
    case DownRelease(_, _) => ReleaseGuard(t)
    case UpRelease(_) => ReleaseGuard(t)
    case Parking(_) => Park(t)
    case Woken(_) => Resume(t)
  }

  /** How many steps of its own a thread is away from leaving its call or falling
      asleep. */
  function Distance(pc: Pc): nat {
    match pc
    case Idle => 0
    case Asleep(_) => 0
    case DownEntry(_) => 4
    case DownGuard(_) => 3
    case DownRelease(_, _) => 2
    case Parking(_) => 1
    case Woken(_) => 1
    case UpEntry(_) => 4
    case UpGuard(_) => 3
    case UpUnpark(_, _) => 2
    case UpRelease(_) => 1
  }

  /** A thread in a call that is not asleep can take a step towards the end of the
      call, or spins for a guard that another thread holds; and that thread can take
      a step towards releasing it. */
  lemma ThreadsGoOn(counts: map<SemId, int>, steps: seq<Step>, y: Sys, t: Tid)
    requires forall r :: r in counts ==> counts[r] >= 0
    requires Run(Start(counts), steps, y) && t in y.threads && !y.threads[t].pc.Idle? && !y.threads[t].pc.Asleep?
    ensures var pc := y.threads[t].pc;
      || GoesOn(y, t)
      || (&& (pc.DownEntry? || pc.UpEntry?)
          && exists u :: u != t && u in y.threads && Holds(y.threads[u].pc, pc.s) && GoesOn(y, u))
  {
    StartInv(counts);
    RunKeeps(Start(counts), steps, y);
    var pc := y.threads[t].pc;
    assert ThreadOk(y, t);
    if (pc.DownEntry? || pc.UpEntry?) && y.sems[pc.s].guard {
      GuardExactly(counts, steps, y, pc.s);
      var u :| u in y.threads && Holds(y.threads[u].pc, pc.s);
      StepTowards(y, u);
    } else {
      StepTowards(y, t);
    }
  }

  ghost predicate GoesOn(y: Sys, t: Tid) {
    && t in y.threads && !y.threads[t].pc.Idle? && !y.threads[t].pc.Asleep?
    && var a := NextOf(t, y.threads[t].pc);
       && Enabled(y, a) && !Next(y, a).fault && t in Next(y, a).threads
       && Distance(Next(y, a).threads[t].pc) < Distance(y.threads[t].pc)
  }

  lemma StepTowards(y: Sys, t: Tid)
    requires Inv(y) && t in y.threads && !y.threads[t].pc.Idle? && !y.threads[t].pc.Asleep?
    requires var pc := y.threads[t].pc; (pc.DownEntry? || pc.UpEntry?) && pc.s in y.sems ==> !y.sems[pc.s].guard
    ensures GoesOn(y, t)
  {
    assert ThreadOk(y, t);
    StepKeeps(y, NextOf(t, y.threads[t].pc));
  }

  // ---- the counts are those of the run ------------------------------------

  datatype Account = Account(ups: nat, downs: nat, passed: nat, waited: seq<Tid>, granted: seq<Tid>)

  /** sem_up calls that had the guard, sem_down calls that had it and those that
      returned, threads told to wait, and threads to be unparked, by the places of
      the threads before and after a step. */
  function Booked(b: Account, t: Tid, pc: Pc, pc': Pc, s: SemId): Account {
    Account(b.ups + (if pc == UpGuard(s) && pc' != pc then 1 else 0),
            b.downs + (if pc == DownGuard(s) && pc' != pc then 1 else 0),
            b.passed + (if pc'.Idle? && InDown(pc, s) then 1 else 0),
            if pc' == DownRelease(s, true) && pc != pc' then b.waited + [t] else b.waited,
            if pc'.UpUnpark? && pc'.s == s && pc != pc' then b.granted + [pc'.who] else b.granted)
  }

  predicate InDown(pc: Pc, s: SemId) {
    pc == DownRelease(s, true) || pc == DownRelease(s, false) || pc == Parking(s) || pc == Woken(s)
  }

  ghost function Books(y: Sys, steps: seq<Step>, s: SemId, b: Account): Account
    decreases |steps|
  {
    if steps == [] || !Enabled(y, steps[0]) then b
    else
      var t, y' := steps[0].t, Next(y, steps[0]);
      Books(y', steps[1..], s,
            if t in y.threads && t in y'.threads then Booked(b, t, y.threads[t].pc, y'.threads[t].pc, s) else b)
  }

  function BookOf(m: Sem): Account {
    Account(m.ups, m.downs, m.passed, m.waited, m.granted)
  }

  /** The books of s after a step are what Booked says. */
  ghost predicate StepBooked(y: Sys, a: Step, s: SemId)
    requires Enabled(y, a) && s in y.sems
  {
    var t, y' := a.t, Next(y, a);
    && s in y'.sems && y'.sems[s].initial == y.sems[s].initial
    && BookOf(y'.sems[s]) ==
       if t in y.threads && t in y'.threads then Booked(BookOf(y.sems[s]), t, y.threads[t].pc, y'.threads[t].pc, s)
       else BookOf(y.sems[s])
  }

  lemma BodyBooked(y: Sys, a: Step, s: SemId)
    requires Enabled(y, a) && s in y.sems && a.Body?
    ensures StepBooked(y, a, s)
  {
  }

  lemma UnparkBooked(y: Sys, a: Step, s: SemId)
    requires Enabled(y, a) && s in y.sems && a.Unpark?
    ensures StepBooked(y, a, s)
  {
  }

  lemma BookStep(y: Sys, a: Step, s: SemId)
    requires Enabled(y, a) && s in y.sems
    ensures StepBooked(y, a, s)
  {
    if a.Body? {
      BodyBooked(y, a, s);
    } else if a.Unpark? {
      UnparkBooked(y, a, s);
    }
  }

  lemma {:induction false} BooksRun(y: Sys, steps: seq<Step>, y': Sys, s: SemId)
    requires Inv(y) && Run(y, steps, y') && s in y.sems
    ensures s in y'.sems && BookOf(y'.sems[s]) == Books(y, steps, s, BookOf(y.sems[s]))
    ensures y'.sems[s].initial == y.sems[s].initial
    decreases |steps|
  {
    if steps != [] {
      BookStep(y, steps[0], s);
      StepKeeps(y, steps[0]);
      BooksRun(Next(y, steps[0]), steps[1..], y', s);
    }
  }

  /** No thread is in a call on s, but for those asleep. */
  ghost predicate Settled(y: Sys, s: SemId) {
    forall t :: t in y.threads && !y.threads[t].pc.Idle? && y.threads[t].pc.s == s ==> y.threads[t].pc.Asleep?
  }

  /** When the calls on s have come to rest, as many sem_down calls have returned as
      the initial count and the sem_up calls allow, and those that have not are in
      the queue in the order in which they were told to wait. */
  lemma SettledExactly(counts: map<SemId, int>, steps: seq<Step>, y: Sys, s: SemId)
    requires forall r :: r in counts ==> counts[r] >= 0
    requires Run(Start(counts), steps, y) && s in counts
    ensures s in y.sems && BookOf(y.sems[s]) == Books(Start(counts), steps, s, Account(0, 0, 0, [], []))
    ensures Settled(y, s) ==>
      var b := Books(Start(counts), steps, s, Account(0, 0, 0, [], []));
      && b.passed == (if b.downs < counts[s] + b.ups then b.downs else counts[s] + b.ups)
      && b.waited == b.granted + y.sems[s].queue
      && (forall t :: t in y.threads && y.threads[t].pc == Asleep(s) <==> t in y.sems[s].queue)
  {
    StartInv(counts);
    BooksRun(Start(counts), steps, y, s);
    RunKeeps(Start(counts), steps, y);
    if Settled(y, s) { SettledCount(y, s); }
  }

  lemma SettledCount(y: Sys, s: SemId)
    requires Inv(y) && s in y.sems && Settled(y, s)
    ensures Entitled(y, s) == {}
    ensures forall t :: t in y.threads && y.threads[t].pc == Asleep(s) <==> t in y.sems[s].queue
    ensures var m := y.sems[s];
      && m.passed == (if m.downs < m.initial + m.ups then m.downs else m.initial + m.ups)
      && m.waited == m.granted + m.queue
  {
    assert QueueOk(y, s) && CountOk(y, s);
    forall t | t in y.threads ensures t !in Entitled(y, s) && (y.threads[t].pc == Asleep(s) <==> t in y.sems[s].queue) {
      assert WaiterOk(y, t, s);
    }
    assert Entitled(y, s) == {};
  }
}
