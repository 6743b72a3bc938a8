/** The blocking semaphores of ucthreads.c over park and unpark: any number of
    semaphores, and threads that come and go, at most NPROC at a time, stepping in
    any order.  A thread waits in at most one sem_down at a time, and its one-slot
    lost-wakeup token is shared by all semaphores. */
module Semaphores {

  import opened Common

  const QMAX: nat := 100

  type SemId = nat

  datatype Pc =
    | Idle
    | DownEntry(s: SemId)             // spinning for the guard in sem_down
    | DownGuard(s: SemId)             // holds the guard
    | DownRelease(s: SemId, queued: bool)  // count and queue updated, guard held
    | Parking(s: SemId)               // queued, guard released, before park
    | Asleep(s: SemId)                // SLEEPING in park
    | Woken(s: SemId)                 // made RUNNABLE by unpark
    | UpEntry(s: SemId)
    | UpGuard(s: SemId)
    | UpUnpark(s: SemId, who: Tid)    // dequeued who, guard held
    | UpRelease(s: SemId)

  datatype Token = NoToken | For(s: SemId)     // proc->lostwakeup
  datatype Thread = Thread(pc: Pc, token: Token)

  /** count, queue and guard are the fields of semaphore_t; the rest is history:
      the initial count, the sem_up and sem_down calls that changed count, the
      threads queued and dequeued so far, and the sem_down calls that returned. */
  datatype Sem = Sem(
    guard: bool, count: int, queue: seq<Tid>,
    initial: int, ups: nat, downs: nat, waited: seq<Tid>, granted: seq<Tid>, passed: nat)

  /** fault: enq on a full ring or deq on an empty one, which the code does not
      check for. */
  datatype Sys = Sys(sems: map<SemId, Sem>, threads: map<Tid, Thread>, fault: bool)

  function SemInit(n: int): Sem {
    Sem(false, n, [], n, 0, 0, [], [], 0)
  }

  /** sem_down between taking and releasing the guard. */
  function DownBody(m: Sem, t: Tid): Sem {
    var m' := m.(count := m.count - 1, downs := m.downs + 1);
    if m'.count < 0 then m'.(queue := m.queue + [t], waited := m.waited + [t]) else m'
  }

  /** sem_up between taking the guard and unpark. */
  function UpBody(m: Sem): Sem {
    var m' := m.(count := m.count + 1, ups := m.ups + 1);
    if m'.count <= 0 && m.queue != [] then m'.(queue := m.queue[1..], granted := m.granted + [m.queue[0]]) else m'
  }

  datatype Step =
    | Spawn(t: Tid)
    | Leave(t: Tid)
    | CallDown(t: Tid, s: SemId)
    | CallUp(t: Tid, s: SemId)
    | TakeGuard(t: Tid)
    | Body(t: Tid)
    | Unpark(t: Tid)
    | ReleaseGuard(t: Tid)
    | Park(t: Tid)
    | Resume(t: Tid)

  function SetPc(y: Sys, t: Tid, pc: Pc): Sys
    requires t in y.threads
  {
    y.(threads := y.threads[t := y.threads[t].(pc := pc)])
  }

  function SetSem(y: Sys, s: SemId, m: Sem): Sys {
    y.(sems := y.sems[s := m])
  }

  predicate SemKnown(y: Sys, pc: Pc) {
    pc.Idle? || pc.s in y.sems
  }

  /** A thread is created while the table has room; it leaves from outside the
      semaphores. */
  predicate Enabled(y: Sys, a: Step) {
    !y.fault &&
    if a.Spawn? then a.t !in y.threads && |y.threads| < NPROC
    else a.t in y.threads && SemKnown(y, y.threads[a.t].pc) && MayGo(y, y.threads[a.t].pc, a)
  }

  predicate MayGo(y: Sys, pc: Pc, a: Step)
    requires SemKnown(y, pc)
  {
    match a
    case Spawn(_) => false
    case Leave(_) => pc.Idle?
    case CallDown(_, s) => pc.Idle? && s in y.sems
    case CallUp(_, s) => pc.Idle? && s in y.sems
    case TakeGuard(_) => (pc.DownEntry? || pc.UpEntry?) && !y.sems[pc.s].guard
    case Body(_) => pc.DownGuard? || pc.UpGuard?
    case Unpark(_) => pc.UpUnpark?
    case ReleaseGuard(_) => pc.DownRelease? || pc.UpRelease?
    case Park(_) => pc.Parking?
    case Resume(_) => pc.Woken?
  }

  /** unpark(who, &s->count): wake who if it sleeps there, else leave a token. */
  function Unparked(y: Sys, who: Tid, s: SemId): Sys {
    if who !in y.threads then y
    else if y.threads[who].pc == Asleep(s) then SetPc(y, who, Woken(s))
    else y.(threads := y.threads[who := y.threads[who].(token := For(s))])
  }

  /** park(&s->count): consume the token for s, or sleep and drop any token. */
  function Parked(y: Sys, t: Tid, s: SemId): Sys
    requires t in y.threads && s in y.sems
  {
    if y.threads[t].token == For(s)
    then SetSem(y.(threads := y.threads[t := Thread(Idle, NoToken)]), s, y.sems[s].(passed := y.sems[s].passed + 1))
    else y.(threads := y.threads[t := Thread(Asleep(s), NoToken)])
  }

  function Next(y: Sys, a: Step): Sys
    requires Enabled(y, a)
  {
    if a.Spawn? then y.(threads := y.threads[a.t := Thread(Idle, NoToken)]) else Go(y, a)
  }

  /** The step of a thread that is there. */
  function Go(y: Sys, a: Step): Sys
    requires Enabled(y, a) && !a.Spawn?
  {
    var t, pc := a.t, y.threads[a.t].pc;
    match a
    case Leave(_) => y.(threads := y.threads - {t})
    case CallDown(_, s) => SetPc(y, t, DownEntry(s))
    case CallUp(_, s) => SetPc(y, t, UpEntry(s))
    case TakeGuard(_) =>
      var y' := SetSem(y, pc.s, y.sems[pc.s].(guard := true));
      SetPc(y', t, if pc.DownEntry? then DownGuard(pc.s) else UpGuard(pc.s))
    case Body(_) =>
      var m := y.sems[pc.s];
      if pc.DownGuard? then
        var queued := m.count - 1 < 0;
        if queued && |m.queue| >= QMAX then y.(fault := true)
        else SetPc(SetSem(y, pc.s, DownBody(m, t)), t, DownRelease(pc.s, queued))
      else
        if m.count + 1 > 0 then SetPc(SetSem(y, pc.s, UpBody(m)), t, UpRelease(pc.s))
        else if m.queue == [] then y.(fault := true)
        else SetPc(SetSem(y, pc.s, UpBody(m)), t, UpUnpark(pc.s, m.queue[0]))
    case Unpark(_) => SetPc(Unparked(y, pc.who, pc.s), t, UpRelease(pc.s))
    case ReleaseGuard(_) =>
      var m := y.sems[pc.s].(guard := false);
      if pc.UpRelease? then SetPc(SetSem(y, pc.s, m), t, Idle)
      else if pc.queued then SetPc(SetSem(y, pc.s, m), t, Parking(pc.s))
      else SetPc(SetSem(y, pc.s, m.(passed := m.passed + 1)), t, Idle)
    case Park(_) => Parked(y, t, pc.s)
    case Resume(_) => SetPc(SetSem(y, pc.s, y.sems[pc.s].(passed := y.sems[pc.s].passed + 1)), t, Idle)
  }

  /** Fresh semaphores with the given counts, and nobody there yet. */
  function Start(counts: map<SemId, int>): Sys {
    Sys(map s | s in counts :: SemInit(counts[s]), map[], false)
  }

  ghost predicate Run(y: Sys, steps: seq<Step>, y': Sys)
    decreases |steps|
  {
    if steps == [] then y == y' else Enabled(y, steps[0]) && Run(Next(y, steps[0]), steps[1..], y')
  }

  // ---- the invariant ------------------------------------------------------

  predicate Holds(pc: Pc, s: SemId) {
    match pc
    case DownGuard(r) => r == s
    case DownRelease(r, _) => r == s
    case UpGuard(r) => r == s
    case UpUnpark(r, _) => r == s
    case UpRelease(r) => r == s
    case _ => false
  }

  /** In sem_down of s, past the point where it was queued, and not yet woken. */
  predicate WaitsOn(pc: Pc, s: SemId) {
    pc == DownRelease(s, true) || pc == Parking(s) || pc == Asleep(s)
  }

  /** The counters of one semaphore. */
  predicate SemOk(m: Sem) {
    && m.initial >= 0
    && m.count == m.initial + m.ups - m.downs
    && |m.queue| == (if m.count < 0 then -m.count else 0)
    && m.waited == m.granted + m.queue
    && (forall i, j :: 0 <= i < j < |m.queue| ==> m.queue[i] != m.queue[j])
  }

  ghost predicate UnparkedSoon(y: Sys, t: Tid, s: SemId) {
    exists u :: u in y.threads && y.threads[u].pc == UpUnpark(s, t)
  }

  /** Where a thread in sem_down stands: still queued, or dequeued with a token,
      or dequeued and about to be unparked. */
  ghost predicate WaiterOk(y: Sys, t: Tid, s: SemId) {
    t in y.threads && s in y.sems ==>
      var th, q := y.threads[t], y.sems[s].queue;
      && (t in q ==> WaitsOn(th.pc, s) && th.token == NoToken)
      && (th.token == For(s) ==> th.pc == DownRelease(s, true) || th.pc == Parking(s))
      && (WaitsOn(th.pc, s) && t !in q ==> th.token == For(s) || UnparkedSoon(y, t, s))
      && (UnparkedSoon(y, t, s) ==> WaitsOn(th.pc, s) && t !in q && th.token == NoToken)
  }

  predicate GuardPair(y: Sys, t: Tid, u: Tid, s: SemId) {
    t in y.threads && u in y.threads && Holds(y.threads[t].pc, s) && Holds(y.threads[u].pc, s) ==> t == u
  }

  predicate GuardOk(y: Sys, t: Tid, s: SemId) {
    t in y.threads && s in y.sems && Holds(y.threads[t].pc, s) ==> y.sems[s].guard
  }

  predicate ThreadOk(y: Sys, t: Tid) {
    t in y.threads ==>
      && SemKnown(y, y.threads[t].pc)
      && (y.threads[t].token.For? ==> y.threads[t].token.s in y.sems)
      && (y.threads[t].pc.UpUnpark? ==> y.threads[t].pc.who in y.threads)
  }

  predicate QueueOk(y: Sys, s: SemId) {
    s in y.sems ==> SemOk(y.sems[s]) && forall t :: t in y.sems[s].queue ==> t in y.threads
  }

  /** sem_down calls that may return but have not: let through at once, holding
      a token, or dequeued. */
  ghost function Entitled(y: Sys, s: SemId): set<Tid>
    requires s in y.sems
  {
    set t | t in y.threads && EntitledPc(y.threads[t].pc, s, t in y.sems[s].queue)
  }

  predicate EntitledPc(pc: Pc, s: SemId, queued: bool) {
    pc == DownRelease(s, false) || pc == Woken(s) || (WaitsOn(pc, s) && !queued)
  }

  ghost predicate CountOk(y: Sys, s: SemId) {
    s in y.sems ==>
      var m := y.sems[s];
      m.passed + |Entitled(y, s)| == m.downs - |m.queue|
  }

  ghost predicate Inv(y: Sys) {
    && !y.fault && |y.threads| <= NPROC
    && (forall t :: ThreadOk(y, t))
    && (forall s :: QueueOk(y, s))
    && (forall t, s :: WaiterOk(y, t, s))
    && (forall t, u, s :: GuardPair(y, t, u, s))
    && (forall t, s :: GuardOk(y, t, s))
    && (forall s :: CountOk(y, s))
  }

  // ---- every step keeps it ------------------------------------------------

  /** y' is y with thread t moved and other threads as they were. */
  ghost predicate OnlyThread(y: Sys, y': Sys, t: Tid) {
    && t in y.threads && y'.threads.Keys == y.threads.Keys
    && forall u :: u in y.threads && u != t ==> y'.threads[u] == y.threads[u]
  }

  lemma SoonKept(y: Sys, y': Sys, t: Tid, w: Tid, s: SemId)
    requires OnlyThread(y, y', t)
    requires y.threads[t].pc == UpUnpark(s, w) <==> y'.threads[t].pc == UpUnpark(s, w)
    ensures UnparkedSoon(y, w, s) <==> UnparkedSoon(y', w, s)
  {
    if UnparkedSoon(y, w, s) {
      var u :| u in y.threads && y.threads[u].pc == UpUnpark(s, w);
      assert u in y'.threads && y'.threads[u].pc == UpUnpark(s, w);
    }
    if UnparkedSoon(y', w, s) {
      var u :| u in y'.threads && y'.threads[u].pc == UpUnpark(s, w);
      assert u in y.threads && y.threads[u].pc == UpUnpark(s, w);
    }
  }

  /** The set of entitled threads when only thread t moves. */
  lemma EntitledMove(y: Sys, y': Sys, t: Tid, s: SemId)
    requires OnlyThread(y, y', t) && s in y.sems && s in y'.sems
    requires forall u :: u in y.threads && u != t ==> (u in y.sems[s].queue <==> u in y'.sems[s].queue)
    ensures
      var before := EntitledPc(y.threads[t].pc, s, t in y.sems[s].queue);
      var after := EntitledPc(y'.threads[t].pc, s, t in y'.sems[s].queue);
      |Entitled(y', s)| == |Entitled(y, s)| + (if after then 1 else 0) - (if before then 1 else 0)
  {
    forall u | u != t ensures u in Entitled(y, s) <==> u in Entitled(y', s) {
    }
    SizeMove(Entitled(y, s), Entitled(y', s), t);
  }

  lemma SizeMove(e: set<Tid>, e': set<Tid>, t: Tid)
    requires forall u :: u != t ==> (u in e <==> u in e')
    ensures |e'| == |e| + (if t in e' then 1 else 0) - (if t in e then 1 else 0)
  {
    SizeBut(e, t);
    SizeBut(e', t);
    assert e - {t} == e' - {t};
  }

  lemma SizeBut(e: set<Tid>, t: Tid)
    ensures |e - {t}| == |e| - (if t in e then 1 else 0)
  {
    if t !in e {
      assert e - {t} == e;
    }
  }

  lemma MoveCount(y: Sys, y': Sys, t: Tid, s: SemId)
    requires OnlyThread(y, y', t) && s in y.sems && s in y'.sems && CountOk(y, s)
    requires forall u :: u in y.threads && u != t ==> (u in y.sems[s].queue <==> u in y'.sems[s].queue)
    requires
      var m, m' := y.sems[s], y'.sems[s];
      var before := EntitledPc(y.threads[t].pc, s, t in m.queue);
      var after := EntitledPc(y'.threads[t].pc, s, t in m'.queue);
      m'.passed - m.passed + (if after then 1 else 0) - (if before then 1 else 0)
      == m'.downs - |m'.queue| - (m.downs - |m.queue|)
    ensures CountOk(y', s)
  {
    EntitledMove(y, y', t, s);
  }

  /** A step that moves t between places where it neither waits nor unparks, and
      changes of semaphore s0 only the guard. */
  ghost predicate PlainMove(y: Sys, y': Sys, t: Tid, s0: SemId) {
    && OnlyThread(y, y', t) && !y'.fault && s0 in y.sems
    && y'.threads[t].token == y.threads[t].token
    && y'.sems.Keys == y.sems.Keys && (forall s :: s in y.sems && s != s0 ==> y'.sems[s] == y.sems[s])
    && y'.sems[s0] == y.sems[s0].(guard := y'.sems[s0].guard, passed := y'.sems[s0].passed)
    && SemKnown(y', y'.threads[t].pc)
    && !y.threads[t].pc.UpUnpark? && !y'.threads[t].pc.UpUnpark?
  }

  lemma PlainKeeps(y: Sys, y': Sys, t: Tid, s0: SemId)
    requires Inv(y) && PlainMove(y, y', t, s0)
    requires forall s :: s in y.sems ==> (WaitsOn(y.threads[t].pc, s) <==> WaitsOn(y'.threads[t].pc, s))
    requires y.threads[t].token.For? ==> WaitsOn(y'.threads[t].pc, y.threads[t].token.s) && !y'.threads[t].pc.Asleep?
    ensures (forall u :: ThreadOk(y', u)) && (forall s :: QueueOk(y', s)) && (forall u, s :: WaiterOk(y', u, s))
  {
    forall u ensures ThreadOk(y', u) {
      assert ThreadOk(y, u);
    }
    forall s ensures QueueOk(y', s) {
      assert QueueOk(y, s);
    }
    forall u, s ensures WaiterOk(y', u, s) {
      assert WaiterOk(y, u, s) && ThreadOk(y, u);
      SoonKept(y, y', t, u, s);
    }
  }

  lemma StepCall(y: Sys, a: Step)
    requires Inv(y) && Enabled(y, a) && (a.CallDown? || a.CallUp?)
    ensures Inv(Next(y, a))
  {
    var y', t := Next(y, a), a.t;
    assert ThreadOk(y, t);
    NoTokenIdle(y, t);
    PlainKeeps(y, y', t, a.s);
    forall u, v, s ensures GuardPair(y', u, v, s) { assert GuardPair(y, u, v, s); }
    forall u, s ensures GuardOk(y', u, s) { assert GuardOk(y, u, s); }
    forall s ensures CountOk(y', s) {
      assert CountOk(y, s);
      if s in y.sems { EntitledMove(y, y', t, s); }
    }
  }

  /** Only a thread that waits in sem_down can hold a token. */
  lemma NoTokenIdle(y: Sys, t: Tid)
    requires Inv(y) && t in y.threads
    ensures y.threads[t].token.For? ==>
      y.threads[t].token.s in y.sems && WaitsOn(y.threads[t].pc, y.threads[t].token.s)
  {
    assert ThreadOk(y, t);
    if y.threads[t].token.For? {
      assert WaiterOk(y, t, y.threads[t].token.s);
    }
  }

  lemma TakePair(y: Sys, t: Tid, u: Tid, v: Tid, s: SemId)
    requires Enabled(y, TakeGuard(t)) && GuardPair(y, u, v, s) && GuardOk(y, u, s) && GuardOk(y, v, s)
    ensures GuardPair(Next(y, TakeGuard(t)), u, v, s) && GuardOk(Next(y, TakeGuard(t)), u, s)
  {
  }

  lemma TakeCount(y: Sys, t: Tid, s: SemId)
    requires Enabled(y, TakeGuard(t)) && CountOk(y, s)
    ensures CountOk(Next(y, TakeGuard(t)), s)
  {
    if s in y.sems { EntitledMove(y, Next(y, TakeGuard(t)), t, s); }
  }

  lemma StepTakeGuard(y: Sys, t: Tid)
    requires Inv(y) && Enabled(y, TakeGuard(t))
    ensures Inv(Next(y, TakeGuard(t)))
  {
    var y', s0 := Next(y, TakeGuard(t)), y.threads[t].pc.s;
    NoTokenIdle(y, t);
    PlainKeeps(y, y', t, s0);
    forall u, v, s ensures GuardPair(y', u, v, s) { TakePair(y, t, u, v, s); }
    forall u, s ensures GuardOk(y', u, s) { TakePair(y, t, u, u, s); }
    forall s ensures CountOk(y', s) { TakeCount(y, t, s); }
  }

  lemma ReleaseCount(y: Sys, t: Tid, s: SemId)
    requires Enabled(y, ReleaseGuard(t)) && CountOk(y, s) && WaiterOk(y, t, s)
    ensures CountOk(Next(y, ReleaseGuard(t)), s)
  {
    if s in y.sems {
      var y' := Next(y, ReleaseGuard(t));
      EntitledMove(y, y', t, s);
      ReleaseSums(y, t, s);
    }
  }

  /** sem_down that need not wait passes as it leaves the guard. */
  lemma ReleaseSums(y: Sys, t: Tid, s: SemId)
    requires Enabled(y, ReleaseGuard(t)) && s in y.sems && WaiterOk(y, t, s)
    ensures
      var m, y' := y.sems[s], Next(y, ReleaseGuard(t));
      var before := EntitledPc(y.threads[t].pc, s, t in m.queue);
      var after := EntitledPc(y'.threads[t].pc, s, t in m.queue);
      && s in y'.sems && y'.sems[s].queue == m.queue && y'.sems[s].downs == m.downs
      && y'.sems[s].passed + (if after then 1 else 0) == m.passed + (if before then 1 else 0)
  {
  }

  lemma ReleaseGuardOk(y: Sys, t: Tid, u: Tid, s: SemId)
    requires Enabled(y, ReleaseGuard(t)) && GuardOk(y, u, s) && GuardPair(y, u, t, s)
    ensures GuardOk(Next(y, ReleaseGuard(t)), u, s)
  {
  }

  lemma ReleasePair(y: Sys, t: Tid, u: Tid, v: Tid, s: SemId)
    requires Enabled(y, ReleaseGuard(t)) && GuardPair(y, u, v, s)
    ensures GuardPair(Next(y, ReleaseGuard(t)), u, v, s)
  {
  }

  lemma StepRelease(y: Sys, t: Tid)
    requires Inv(y) && Enabled(y, ReleaseGuard(t))
    ensures Inv(Next(y, ReleaseGuard(t)))
  {
    var y', s0 := Next(y, ReleaseGuard(t)), y.threads[t].pc.s;
    NoTokenIdle(y, t);
    PlainKeeps(y, y', t, s0);
    forall u, v, s ensures GuardPair(y', u, v, s) { ReleasePair(y, t, u, v, s); }
    forall u, s ensures GuardOk(y', u, s) { ReleaseGuardOk(y, t, u, s); }
    forall s ensures CountOk(y', s) { ReleaseCount(y, t, s); }
  }

  lemma ResumePair(y: Sys, t: Tid, u: Tid, v: Tid, s: SemId)
    requires Enabled(y, Resume(t)) && GuardPair(y, u, v, s) && GuardOk(y, u, s)
    ensures GuardPair(Next(y, Resume(t)), u, v, s) && GuardOk(Next(y, Resume(t)), u, s)
  {
  }

  lemma ResumeCount(y: Sys, t: Tid, s: SemId)
    requires Enabled(y, Resume(t)) && CountOk(y, s)
    ensures CountOk(Next(y, Resume(t)), s)
  {
    if s in y.sems { EntitledMove(y, Next(y, Resume(t)), t, s); }
  }

  lemma StepResume(y: Sys, t: Tid)
    requires Inv(y) && Enabled(y, Resume(t))
    ensures Inv(Next(y, Resume(t)))
  {
    var y', s0 := Next(y, Resume(t)), y.threads[t].pc.s;
    NoTokenIdle(y, t);
    PlainKeeps(y, y', t, s0);
    forall u, v, s ensures GuardPair(y', u, v, s) { ResumePair(y, t, u, v, s); }
    forall u, s ensures GuardOk(y', u, s) { ResumePair(y, t, u, u, s); }
    forall s ensures CountOk(y', s) { ResumeCount(y, t, s); }
  }

  // ---- the guarded bodies -------------------------------------------------

  /** The ring never fills: its entries are distinct threads. */
  lemma RingFits(y: Sys, s: SemId)
    requires Inv(y) && s in y.sems
    ensures |y.sems[s].queue| <= NPROC < QMAX
  {
    assert QueueOk(y, s);
    DistinctInSet(y.sems[s].queue, y.threads.Keys);
    assert |y.threads.Keys| == |y.threads|;
  }

  lemma DownBodyOk(m: Sem, t: Tid)
    requires SemOk(m) && t !in m.queue
    ensures SemOk(DownBody(m, t))
  {
  }

  lemma UpBodyOk(m: Sem)
    requires SemOk(m)
    ensures SemOk(UpBody(m))
    ensures m.count + 1 <= 0 ==> m.queue != [] && m.queue[0] !in UpBody(m).queue
  {
  }

  lemma DownWaiter(y: Sys, t: Tid, u: Tid, s: SemId)
    requires Inv(y) && Enabled(y, Body(t)) && y.threads[t].pc.DownGuard? && !Next(y, Body(t)).fault
    ensures WaiterOk(Next(y, Body(t)), u, s)
  {
    assert WaiterOk(y, u, s) && ThreadOk(y, u);
    NoTokenIdle(y, t);
    SoonKept(y, Next(y, Body(t)), t, u, s);
  }

  lemma DownCount(y: Sys, t: Tid, s: SemId)
    requires Enabled(y, Body(t)) && y.threads[t].pc.DownGuard? && !Next(y, Body(t)).fault
    requires CountOk(y, s) && WaiterOk(y, t, s)
    ensures CountOk(Next(y, Body(t)), s)
  {
    if s in y.sems {
      MoveCount(y, Next(y, Body(t)), t, s);
    }
  }

  lemma StepDownBody(y: Sys, t: Tid)
    requires Inv(y) && Enabled(y, Body(t)) && y.threads[t].pc.DownGuard?
    ensures Inv(Next(y, Body(t)))
  {
    var s0 := y.threads[t].pc.s;
    RingFits(y, s0);
    assert WaiterOk(y, t, s0) && QueueOk(y, s0);
    DownBodyOk(y.sems[s0], t);
    var y' := Next(y, Body(t));
    forall u ensures ThreadOk(y', u) { assert ThreadOk(y, u); }
    forall s ensures QueueOk(y', s) { assert QueueOk(y, s); }
    forall u, s ensures WaiterOk(y', u, s) { DownWaiter(y, t, u, s); }
    forall u, v, s ensures GuardPair(y', u, v, s) { assert GuardPair(y, u, v, s); }
    forall u, s ensures GuardOk(y', u, s) { assert GuardOk(y, u, s); }
    forall s ensures CountOk(y', s) {
      assert CountOk(y, s) && WaiterOk(y, t, s);
      DownCount(y, t, s);
    }
  }

  lemma StepUpPlain(y: Sys, t: Tid)
    requires Inv(y) && Enabled(y, Body(t)) && y.threads[t].pc.UpGuard?
    requires y.sems[y.threads[t].pc.s].count + 1 > 0
    ensures Inv(Next(y, Body(t)))
  {
    var s0 := y.threads[t].pc.s;
    assert QueueOk(y, s0);
    var y' := Next(y, Body(t));
    NoTokenIdle(y, t);
    forall u ensures ThreadOk(y', u) { assert ThreadOk(y, u); }
    forall s ensures QueueOk(y', s) { assert QueueOk(y, s); }
    forall u, s ensures WaiterOk(y', u, s) {
      assert WaiterOk(y, u, s) && ThreadOk(y, u);
      UpPlainWaiter(y, t, u, s);
    }
    forall u, v, s ensures GuardPair(y', u, v, s) { assert GuardPair(y, u, v, s); }
    forall u, s ensures GuardOk(y', u, s) { assert GuardOk(y, u, s); }
    forall s ensures CountOk(y', s) {
      assert CountOk(y, s);
      UpPlainCount(y, t, s);
    }
  }

  lemma UpPlainWaiter(y: Sys, t: Tid, u: Tid, s: SemId)
    requires Enabled(y, Body(t)) && y.threads[t].pc.UpGuard? && y.sems[y.threads[t].pc.s].count + 1 > 0
    requires WaiterOk(y, u, s) && SemOk(y.sems[y.threads[t].pc.s])
    ensures WaiterOk(Next(y, Body(t)), u, s)
  {
    SoonKept(y, Next(y, Body(t)), t, u, s);
  }

  lemma UpPlainCount(y: Sys, t: Tid, s: SemId)
    requires Enabled(y, Body(t)) && y.threads[t].pc.UpGuard? && y.sems[y.threads[t].pc.s].count + 1 > 0
    requires CountOk(y, s) && SemOk(y.sems[y.threads[t].pc.s])
    ensures CountOk(Next(y, Body(t)), s)
  {
    if s in y.sems {
      MoveCount(y, Next(y, Body(t)), t, s);
    }
  }

  /** A grant: the head of the queue leaves it and is about to be unparked. */
  lemma GrantWaiter(y: Sys, y': Sys, t: Tid, u: Tid, s: SemId)
    requires Inv(y) && Enabled(y, Body(t)) && y.threads[t].pc.UpGuard?
    requires y.sems[y.threads[t].pc.s].count + 1 <= 0 && y' == Next(y, Body(t))
    ensures WaiterOk(y', u, s)
  {
    var s0 := y.threads[t].pc.s;
    assert QueueOk(y, s0) && WaiterOk(y, u, s) && ThreadOk(y, t);
    var q := y.sems[s0].queue;
    UpBodyOk(y.sems[s0]);
    if s == s0 && u == q[0] {
      NoSoonWhileGuard(y, t, s0, u);
      GrantHead(y, y', t, u);
    } else {
      assert SemOk(y.sems[s0]);
      GrantOther(y, y', t, u, s);
    }
  }

  lemma GrantHead(y: Sys, y': Sys, t: Tid, u: Tid)
    requires Enabled(y, Body(t)) && y.threads[t].pc.UpGuard? && y' == Next(y, Body(t))
    requires var m := y.sems[y.threads[t].pc.s]; m.count + 1 <= 0 && SemOk(m) && m.queue != [] && u == m.queue[0]
    requires WaiterOk(y, u, y.threads[t].pc.s) && !UnparkedSoon(y, u, y.threads[t].pc.s)
    ensures WaiterOk(y', u, y.threads[t].pc.s)
  {
    var s := y.threads[t].pc.s;
    var q := y.sems[s].queue;
    assert q == [u] + q[1..];
    assert y'.threads[t].pc == UpUnpark(s, u);
  }

  lemma GrantOther(y: Sys, y': Sys, t: Tid, u: Tid, s: SemId)
    requires Enabled(y, Body(t)) && y.threads[t].pc.UpGuard? && y' == Next(y, Body(t)) && WaiterOk(y, u, s)
    requires var s0 := y.threads[t].pc.s;
      var m := y.sems[s0];
      m.count + 1 <= 0 && m.queue != [] && !(s == s0 && u == m.queue[0])
    ensures WaiterOk(y', u, s)
  {
    var q := y.sems[y.threads[t].pc.s].queue;
    assert q == [q[0]] + q[1..];
    SoonKept(y, y', t, u, s);
  }

  /** The guard's holder is the only thread that can be about to unpark. */
  lemma NoSoonWhileGuard(y: Sys, t: Tid, s: SemId, w: Tid)
    requires Inv(y) && t in y.threads && y.threads[t].pc == UpGuard(s)
    ensures !UnparkedSoon(y, w, s)
  {
    forall u | u in y.threads ensures y.threads[u].pc != UpUnpark(s, w) {
      assert GuardPair(y, t, u, s);
    }
  }

  lemma GrantCount(y: Sys, t: Tid, s: SemId)
    requires Inv(y) && Enabled(y, Body(t)) && y.threads[t].pc.UpGuard?
    requires y.sems[y.threads[t].pc.s].count + 1 <= 0
    ensures CountOk(Next(y, Body(t)), s)
  {
    var y', s0 := Next(y, Body(t)), y.threads[t].pc.s;
    assert CountOk(y, s) && QueueOk(y, s0);
    if s == s0 {
      GrantEntitles(y, t, s);
    } else {
      GrantElsewhere(y, t, s);
    }
  }

  lemma GrantElsewhere(y: Sys, t: Tid, s: SemId)
    requires Enabled(y, Body(t)) && y.threads[t].pc.UpGuard? && y.threads[t].pc.s != s && CountOk(y, s)
    requires y.sems[y.threads[t].pc.s].count + 1 <= 0 && y.sems[y.threads[t].pc.s].queue != []
    ensures CountOk(Next(y, Body(t)), s)
  {
    if s in y.sems {
      MoveCount(y, Next(y, Body(t)), t, s);
    }
  }

  lemma GrantEntitles(y: Sys, t: Tid, s: SemId)
    requires Inv(y) && Enabled(y, Body(t)) && y.threads[t].pc == UpGuard(s) && y.sems[s].count + 1 <= 0
    ensures |y.sems[s].queue| > 0 && y.sems[s].queue[0] !in Entitled(y, s)
    ensures Entitled(Next(y, Body(t)), s) == Entitled(y, s) + {y.sems[s].queue[0]}
  {
    var y', m := Next(y, Body(t)), y.sems[s];
    assert QueueOk(y, s);
    UpBodyOk(m);
    var who := m.queue[0];
    assert m.queue == [who] + m.queue[1..];
    assert WaiterOk(y, who, s);
    forall u ensures u in Entitled(y', s) <==> u in Entitled(y, s) || u == who {
    }
  }

  lemma StepGrant(y: Sys, t: Tid)
    requires Inv(y) && Enabled(y, Body(t)) && y.threads[t].pc.UpGuard?
    requires y.sems[y.threads[t].pc.s].count + 1 <= 0
    ensures Inv(Next(y, Body(t)))
  {
    var s0 := y.threads[t].pc.s;
    assert QueueOk(y, s0);
    UpBodyOk(y.sems[s0]);
    var y' := Next(y, Body(t));
    assert y.sems[s0].queue[0] in y.sems[s0].queue;
    forall u ensures ThreadOk(y', u) { assert ThreadOk(y, u); }
    forall s ensures QueueOk(y', s) { assert QueueOk(y, s); }
    forall u, s ensures WaiterOk(y', u, s) { GrantWaiter(y, y', t, u, s); }
    forall u, v, s ensures GuardPair(y', u, v, s) { assert GuardPair(y, u, v, s); }
    forall u, s ensures GuardOk(y', u, s) { assert GuardOk(y, u, s); }
    forall s ensures CountOk(y', s) { GrantCount(y, t, s); }
  }

  // ---- unpark and park ----------------------------------------------------

  lemma UnparkSoon(y: Sys, t: Tid, u: Tid, s: SemId)
    requires Inv(y) && Enabled(y, Unpark(t))
    ensures UnparkedSoon(Next(y, Unpark(t)), u, s) <==> UnparkedSoon(y, u, s) && y.threads[t].pc != UpUnpark(s, u)
  {
    var y', pc := Next(y, Unpark(t)), y.threads[t].pc;
    UnparkTarget(y, t);
    if UnparkedSoon(y', u, s) {
      var v :| v in y'.threads && y'.threads[v].pc == UpUnpark(s, u);
      assert v in y.threads && y.threads[v].pc == UpUnpark(s, u);
      assert GuardPair(y, t, v, s);
    }
    if UnparkedSoon(y, u, s) && pc != UpUnpark(s, u) {
      var v :| v in y.threads && y.threads[v].pc == UpUnpark(s, u);
      assert v in y'.threads && y'.threads[v].pc == UpUnpark(s, u);
    }
  }

  /** Who is unparked still waits, is off the queue and has no token. */
  lemma UnparkTarget(y: Sys, t: Tid)
    requires Inv(y) && Enabled(y, Unpark(t))
    ensures var s, who := y.threads[t].pc.s, y.threads[t].pc.who;
      && who in y.threads && who != t && WaitsOn(y.threads[who].pc, s)
      && who !in y.sems[s].queue && y.threads[who].token == NoToken
  {
    var s, who := y.threads[t].pc.s, y.threads[t].pc.who;
    assert ThreadOk(y, t) && WaiterOk(y, who, s);
    assert UnparkedSoon(y, who, s);
  }

  lemma UnparkWaiter(y: Sys, t: Tid, u: Tid, s: SemId)
    requires Inv(y) && Enabled(y, Unpark(t))
    ensures WaiterOk(Next(y, Unpark(t)), u, s)
  {
    UnparkTarget(y, t);
    UnparkSoon(y, t, u, s);
    assert WaiterOk(y, u, s);
  }

  lemma UnparkCount(y: Sys, t: Tid, s: SemId)
    requires Inv(y) && Enabled(y, Unpark(t))
    ensures CountOk(Next(y, Unpark(t)), s)
  {
    assert CountOk(y, s);
    if s in y.sems {
      forall u | u in y.threads ensures SameRight(y, Next(y, Unpark(t)), s, u) {
        UnparkRight(y, t, s, u);
      }
      EntitledSame(y, Next(y, Unpark(t)), s);
    }
  }

  /** Thread u may return from sem_down on s after the step just when it could
      before. */
  predicate SameRight(y: Sys, y': Sys, s: SemId, u: Tid)
    requires s in y.sems && s in y'.sems
  {
    u in y.threads && u in y'.threads &&
    (EntitledPc(y.threads[u].pc, s, u in y.sems[s].queue) <==> EntitledPc(y'.threads[u].pc, s, u in y'.sems[s].queue))
  }

  lemma UnparkRight(y: Sys, t: Tid, s: SemId, u: Tid)
    requires Inv(y) && Enabled(y, Unpark(t)) && s in y.sems && u in y.threads
    ensures s in Next(y, Unpark(t)).sems && SameRight(y, Next(y, Unpark(t)), s, u)
  {
    UnparkTarget(y, t);
  }

  lemma EntitledSame(y: Sys, y': Sys, s: SemId)
    requires s in y.sems && s in y'.sems && y.threads.Keys == y'.threads.Keys
    requires forall u :: u in y.threads ==> SameRight(y, y', s, u)
    ensures Entitled(y, s) == Entitled(y', s)
  {
    forall u ensures u in Entitled(y, s) <==> u in Entitled(y', s) {
      if u in y.threads {
        assert SameRight(y, y', s, u);
      }
    }
  }

  lemma StepUnpark(y: Sys, t: Tid)
    requires Inv(y) && Enabled(y, Unpark(t))
    ensures Inv(Next(y, Unpark(t)))
  {
    var y' := Next(y, Unpark(t));
    UnparkTarget(y, t);
    forall u ensures ThreadOk(y', u) { assert ThreadOk(y, u); }
    forall s ensures QueueOk(y', s) { assert QueueOk(y, s); }
    forall u, s ensures WaiterOk(y', u, s) { UnparkWaiter(y, t, u, s); }
    forall u, v, s ensures GuardPair(y', u, v, s) { assert GuardPair(y, u, v, s); }
    forall u, s ensures GuardOk(y', u, s) { assert GuardOk(y, u, s); }
    forall s ensures CountOk(y', s) { UnparkCount(y, t, s); }
  }

  lemma ParkWaiter(y: Sys, t: Tid, u: Tid, s: SemId)
    requires Inv(y) && Enabled(y, Park(t))
    ensures WaiterOk(Next(y, Park(t)), u, s)
  {
    NoTokenIdle(y, t);
    assert WaiterOk(y, u, s) && WaiterOk(y, t, y.threads[t].pc.s);
    SoonKept(y, Next(y, Park(t)), t, u, s);
  }

  lemma ParkCount(y: Sys, t: Tid, s: SemId)
    requires Inv(y) && Enabled(y, Park(t))
    ensures CountOk(Next(y, Park(t)), s)
  {
    assert CountOk(y, s) && WaiterOk(y, t, s);
    if s in y.sems {
      MoveCount(y, Next(y, Park(t)), t, s);
    }
  }

  lemma StepPark(y: Sys, t: Tid)
    requires Inv(y) && Enabled(y, Park(t))
    ensures Inv(Next(y, Park(t)))
  {
    var y' := Next(y, Park(t));
    forall u ensures ThreadOk(y', u) { assert ThreadOk(y, u); }
    forall s ensures QueueOk(y', s) { assert QueueOk(y, s); }
    forall u, s ensures WaiterOk(y', u, s) { ParkWaiter(y, t, u, s); }
    forall u, v, s ensures GuardPair(y', u, v, s) { assert GuardPair(y, u, v, s); }
    forall u, s ensures GuardOk(y', u, s) { assert GuardOk(y, u, s); }
    forall s ensures CountOk(y', s) { ParkCount(y, t, s); }
  }

  // ---- coming and going ---------------------------------------------------

  /** Everything but thread t, which waits for nothing, is as it was. */
  ghost predicate AllBut(y: Sys, y': Sys, t: Tid) {
    && y'.sems == y.sems && y'.fault == y.fault
    && (t in y.threads ==> y.threads[t] == Thread(Idle, NoToken))
    && (t in y'.threads ==> y'.threads[t] == Thread(Idle, NoToken))
    && forall u :: u != t ==>
        (u in y.threads <==> u in y'.threads) && (u in y.threads ==> y'.threads[u] == y.threads[u])
  }

  lemma SoonBut(y: Sys, y': Sys, t: Tid, w: Tid, s: SemId)
    requires AllBut(y, y', t)
    ensures UnparkedSoon(y, w, s) <==> UnparkedSoon(y', w, s)
  {
    if u :| u in y.threads && y.threads[u].pc == UpUnpark(s, w) {
      assert u in y'.threads && y'.threads[u].pc == UpUnpark(s, w);
    }
    if u :| u in y'.threads && y'.threads[u].pc == UpUnpark(s, w) {
      assert u in y.threads && y.threads[u].pc == UpUnpark(s, w);
    }
  }

  /** Nobody refers to t: it is on no queue and nobody is about to unpark it. */
  ghost predicate Unnamed(y: Sys, t: Tid) {
    && (forall s :: s in y.sems ==> t !in y.sems[s].queue)
    && (forall u :: u in y.threads && y.threads[u].pc.UpUnpark? ==> y.threads[u].pc.who != t)
  }

  lemma ComeOrGo(y: Sys, y': Sys, t: Tid)
    requires Inv(y) && AllBut(y, y', t) && Unnamed(y, t) && |y'.threads| <= NPROC
    ensures Inv(y')
  {
    forall u ensures ThreadOk(y', u) { assert ThreadOk(y, u); }
    forall s ensures QueueOk(y', s) { assert QueueOk(y, s); }
    forall u, s ensures WaiterOk(y', u, s) {
      assert WaiterOk(y, u, s);
      SoonBut(y, y', t, u, s);
    }
    forall u, v, s ensures GuardPair(y', u, v, s) { assert GuardPair(y, u, v, s); }
    forall u, s ensures GuardOk(y', u, s) { assert GuardOk(y, u, s); }
    forall s ensures CountOk(y', s) {
      assert CountOk(y, s);
      if s in y.sems { assert Entitled(y', s) == Entitled(y, s); }
    }
  }

  lemma StepSpawn(y: Sys, t: Tid)
    requires Inv(y) && Enabled(y, Spawn(t))
    ensures Inv(Next(y, Spawn(t)))
  {
    forall s | s in y.sems ensures t !in y.sems[s].queue { assert QueueOk(y, s); }
    forall u | u in y.threads && y.threads[u].pc.UpUnpark? ensures y.threads[u].pc.who != t { assert ThreadOk(y, u); }
    ComeOrGo(y, Next(y, Spawn(t)), t);
  }

  /** A thread outside the semaphores is named by none of them. */
  lemma IdleUnnamed(y: Sys, t: Tid)
    requires Inv(y) && t in y.threads && y.threads[t].pc.Idle?
    ensures Unnamed(y, t) && y.threads[t].token == NoToken
  {
    NoTokenIdle(y, t);
    forall s | s in y.sems ensures t !in y.sems[s].queue { assert WaiterOk(y, t, s); }
    forall u | u in y.threads && y.threads[u].pc.UpUnpark? ensures y.threads[u].pc.who != t {
      assert ThreadOk(y, u) && WaiterOk(y, t, y.threads[u].pc.s);
    }
  }

  lemma StepLeave(y: Sys, t: Tid)
    requires Inv(y) && Enabled(y, Leave(t))
    ensures Inv(Next(y, Leave(t)))
  {
    IdleUnnamed(y, t);
    var y' := Next(y, Leave(t));
    assert y'.threads.Keys == y.threads.Keys - {t};
    assert |y'.threads| == |y'.threads.Keys| && |y.threads| == |y.threads.Keys|;
    ComeOrGo(y, y', t);
  }

  // ---- whole runs ---------------------------------------------------------

  lemma StepKeeps(y: Sys, a: Step)
    requires Inv(y) && Enabled(y, a)
    ensures Inv(Next(y, a))
  {
    match a
    case Spawn(t) => StepSpawn(y, t);
    case Leave(t) => StepLeave(y, t);
    case CallDown(_, _) => StepCall(y, a);
    case CallUp(_, _) => StepCall(y, a);
    case TakeGuard(t) => StepTakeGuard(y, t);
    case Body(t) =>
      if y.threads[t].pc.DownGuard? {
        StepDownBody(y, t);
      } else if y.sems[y.threads[t].pc.s].count + 1 > 0 {
        StepUpPlain(y, t);
      } else {
        StepGrant(y, t);
      }
    case Unpark(t) => StepUnpark(y, t);
    case ReleaseGuard(t) => StepRelease(y, t);
    case Park(t) => StepPark(y, t);
    case Resume(t) => StepResume(y, t);
  }

  lemma {:induction false} RunKeeps(y: Sys, steps: seq<Step>, y': Sys)
    requires Inv(y) && Run(y, steps, y')
    ensures Inv(y')
    decreases |steps|
  {
    if steps != [] {
      StepKeeps(y, steps[0]);
      RunKeeps(Next(y, steps[0]), steps[1..], y');
    }
  }

  lemma StartInv(counts: map<SemId, int>)
    requires forall s :: s in counts ==> counts[s] >= 0
    ensures Inv(Start(counts))
  {
    var y := Start(counts);
    forall s ensures CountOk(y, s) {
      if s in y.sems { assert Entitled(y, s) == {}; }
    }
  }

  /** In every state of every run, for every semaphore that started with a count
      of at least zero among threads that are never killed. */
  lemma SemaphoreLaws(counts: map<SemId, int>, steps: seq<Step>, y: Sys, s: SemId)
    requires forall r :: r in counts ==> counts[r] >= 0
    requires Run(Start(counts), steps, y) && s in y.sems
    ensures !y.fault
    // the queue holds max(0, -count) distinct threads and the ring never fills
    ensures |y.sems[s].queue| == if y.sems[s].count < 0 then -y.sems[s].count else 0
    ensures |y.sems[s].queue| <= NPROC < QMAX
    ensures forall i, j :: 0 <= i < j < |y.sems[s].queue| ==> y.sems[s].queue[i] != y.sems[s].queue[j]
    // waiters are granted first come first served
    ensures y.sems[s].waited == y.sems[s].granted + y.sems[s].queue
    // completed sem_down calls never exceed the initial count plus the sem_up calls
    ensures y.sems[s].passed <= y.sems[s].initial + y.sems[s].ups
  {
    StartInv(counts);
    RunKeeps(Start(counts), steps, y);
    RingFits(y, s);
    assert QueueOk(y, s) && CountOk(y, s);
  }

  /** No wakeup is lost: a thread asleep in park is still queued, or a sem_up
      that holds the guard has dequeued it and is about to unpark it. */
  lemma NoLostWakeup(counts: map<SemId, int>, steps: seq<Step>, y: Sys, t: Tid, s: SemId)
    requires forall r :: r in counts ==> counts[r] >= 0
    requires Run(Start(counts), steps, y) && t in y.threads && y.threads[t].pc == Asleep(s)
    ensures s in y.sems && (t in y.sems[s].queue || (y.sems[s].guard && UnparkedSoon(y, t, s)))
    ensures !y.sems[s].guard ==> t in y.sems[s].queue && y.sems[s].count < 0
  {
    StartInv(counts);
    RunKeeps(Start(counts), steps, y);
    assert ThreadOk(y, t) && WaiterOk(y, t, s) && QueueOk(y, s);
    if t !in y.sems[s].queue {
      var u :| u in y.threads && y.threads[u].pc == UpUnpark(s, t);
      assert GuardOk(y, u, s);
    }
  }

  /** The guard is held by one thread at a time. */
  lemma GuardExclusive(counts: map<SemId, int>, steps: seq<Step>, y: Sys, t: Tid, u: Tid, s: SemId)
    requires forall r :: r in counts ==> counts[r] >= 0
    requires Run(Start(counts), steps, y) && t in y.threads && u in y.threads
    requires Holds(y.threads[t].pc, s) && Holds(y.threads[u].pc, s)
    ensures t == u
  {
    StartInv(counts);
    RunKeeps(Start(counts), steps, y);
    assert GuardPair(y, t, u, s);
  }

  /** A thread that has been granted is never left asleep: once the sem_up that
      dequeued it has released the guard it can run to the end of sem_down. */
  lemma GrantedRuns(counts: map<SemId, int>, steps: seq<Step>, y: Sys, t: Tid, s: SemId)
    requires forall r :: r in counts ==> counts[r] >= 0
    requires Run(Start(counts), steps, y) && t in y.threads && s in y.sems && !y.sems[s].guard
    requires y.threads[t].pc == Parking(s) && t !in y.sems[s].queue
    ensures Enabled(y, Park(t)) && Next(y, Park(t)).threads[t].pc == Idle
  {
    StartInv(counts);
    RunKeeps(Start(counts), steps, y);
    assert WaiterOk(y, t, s) && ThreadOk(y, t);
    forall u | u in y.threads ensures y.threads[u].pc != UpUnpark(s, t) {
      assert GuardOk(y, u, s);
    }
  }

  /** unpark always finds its thread: it has not left, and it still waits. */
  lemma UnparkFinds(counts: map<SemId, int>, steps: seq<Step>, y: Sys, t: Tid)
    requires forall r :: r in counts ==> counts[r] >= 0
    requires Run(Start(counts), steps, y) && Enabled(y, Unpark(t))
    ensures var s, who := y.threads[t].pc.s, y.threads[t].pc.who;
      who in y.threads && who != t && WaitsOn(y.threads[who].pc, s) && y.threads[who].token == NoToken
  {
    StartInv(counts);
    RunKeeps(Start(counts), steps, y);
    UnparkTarget(y, t);
  }

  lemma RunCons(y: Sys, a: Step, steps: seq<Step>, y': Sys)
    requires Enabled(y, a) && Run(Next(y, a), steps, y')
    ensures Run(y, [a] + steps, y')
  {
    assert ([a] + steps)[1..] == steps;
  }

  /** One semaphore after sem_init(&s, n). */
  function StartOne(n: int): Sys {
    Start(map[0 := n])
  }

  /** From a negative count the first sem_up takes from an empty ring. */
  lemma NegativeFault(n: int, t: Tid) returns (steps: seq<Step>, y: Sys)
    requires n < 0
    ensures Run(StartOne(n), steps, y) && y.fault
  {
    var y0 := StartOne(n);
    var y1 := Next(y0, Spawn(t));
    var y2 := Next(y1, CallUp(t, 0));
    var y3 := Next(y2, TakeGuard(t));
    y := Next(y3, Body(t));
    RunCons(y3, Body(t), [], y);
    RunCons(y2, TakeGuard(t), [Body(t)] + [], y);
    RunCons(y1, CallUp(t, 0), [TakeGuard(t)] + ([Body(t)] + []), y);
    RunCons(y0, Spawn(t), [CallUp(t, 0)] + ([TakeGuard(t)] + ([Body(t)] + [])), y);
    steps := [Spawn(t)] + ([CallUp(t, 0)] + ([TakeGuard(t)] + ([Body(t)] + [])));
  }

  /** Some run from sem_init(&s, n) leads to y. */
  ghost predicate Reaches(n: int, y: Sys) {
    exists steps :: Run(StartOne(n), steps, y)
  }

  /** The ring is safe in every run exactly when sem_init was given a count of at
      least zero. */
  lemma NegativeInit(n: int)
    ensures (forall y :: Reaches(n, y) ==> !y.fault) <==> n >= 0
  {
    if n < 0 {
      var steps, y := NegativeFault(n, 0);
      assert Reaches(n, y);
    } else {
      forall y | Reaches(n, y) ensures !y.fault {
        var steps :| Run(StartOne(n), steps, y);
        StartInv(map[0 := n]);
        RunKeeps(StartOne(n), steps, y);
      }
    }
  }
}
