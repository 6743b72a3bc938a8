/** The invariant of the process table: what it says of every slot, of every
    pair of slots and of every thread group, and why each step of ProcessTable
    keeps it. */
module ThreadGroups {
  import opened Common
  import opened ProcessTable

  predicate Spare(p: Proc) {
    p.state.Unused? || p.state.Embryo?
  }

  predicate Creating(pc: Pc) {
    pc.ForkAlloc? || pc.CloneAlloc? || pc.CloneGroup? || pc.CloneParent?
  }

  predicate Execing(pc: Pc) {
    pc.InExec? || pc.ExecAlone? || pc.ExecLoad?
  }

  predicate IsLeader(ps: seq<Proc>, l: int) {
    Valid(ps, l) && ps[l].process == l
  }

  // ---- the invariant, slot by slot and pair by pair -----------------------

  predicate FieldsOk(ps: seq<Proc>, nextpid: nat, i: int)
    requires Valid(ps, i)
  {
    var p := ps[i];
    && p.pid < nextpid && p.tgid < nextpid
    && (p.parent == NIL || Valid(ps, p.parent))
    && (p.process == NIL <==> p.tgid == 0)
    && (p.process == NIL ==> p.threadcount == 0 && p.parent == NIL && Spare(p))
    && (p.state.Unused? ==> p.parent == NIL && (p.process == NIL || p.process == i))
    && (p.state.Embryo? ==> p.pid != 0)
    && (p.process == i && !Spare(p) ==> p.parent != i)
    && (!p.pc.User? ==> Live(p))
  }

  /** A slot that names a leader names an unrecycled one of its own group. */
  predicate MemberOk(ps: seq<Proc>, i: int)
    requires Valid(ps, i)
  {
    var l := ps[i].process;
    l == NIL || (IsLeader(ps, l) && ps[l].tgid == ps[i].tgid && (Spare(ps[l]) ==> i == l))
  }

  /** What a thread in the middle of fork or clone knows of its embryo. */
  predicate CreatorOk(ps: seq<Proc>, t: int)
    requires Valid(ps, t)
  {
    var pc := ps[t].pc;
    Creating(pc) ==>
      && Valid(ps, pc.np) && ps[pc.np].state.Embryo?
      && (match pc
          case CloneGroup(e) => ps[e].process == ps[t].process && ps[e].parent == NIL && ps[e].process != e
          case CloneParent(e) => ps[e].process == ps[t].process && ps[e].parent == ps[t].parent && ps[e].process != e
          case _ => ps[pc.np].parent == NIL && (ps[pc.np].process == NIL || ps[pc.np].process == pc.np))
  }

  predicate JoinerOk(ps: seq<Proc>, t: int)
    requires Valid(ps, t)
  {
    ps[t].pc.InJoin? ==> Valid(ps, ps[t].pc.target) && ps[ps[t].pc.target].process == ps[t].process
  }

  predicate SlotOk(ps: seq<Proc>, nextpid: nat, i: int) {
    Valid(ps, i) ==> FieldsOk(ps, nextpid, i) && MemberOk(ps, i) && CreatorOk(ps, i) && JoinerOk(ps, i)
  }

  predicate PidPair(p: Proc, q: Proc) {
    && (p.state.Embryo? ==> q.tgid != p.pid)
    && (p.state.Embryo? && !q.state.Unused? ==> q.pid != p.pid)
    && (Live(p) && Live(q) && p.process == q.process ==> p.pid != q.pid)
  }

  predicate ParentPair(p: Proc, q: Proc) {
    p.process == q.process && !Spare(p) && !Spare(q) ==> p.parent == q.parent
  }

  /** No thread sleeps in wait while a child group has no thread left. */
  predicate WaitPair(ps: seq<Proc>, p: Proc, q: Proc) {
    p.state.Sleeping? && p.pc.InWait? ==>
      p.chan == OnProc(p.process) && (q.parent == p.process ==> !Harvestable(ps, q))
  }

  /** While exec waits every other live thread of the group is marked; once it
      has left the loop every other member is a ZOMBIE; and one thread of a
      group at a time is past exec's killed check. */
  predicate ExecPair(p: Proc, q: Proc) {
    Execing(p.pc) && q.process == p.process ==>
      && !Execing(q.pc)
      && (p.pc.InExec? && Live(q) ==> q.killed)
      && (!p.pc.InExec? ==> q.state.Zombie?)
  }

  predicate PairOk(ps: seq<Proc>, i: int, j: int) {
    Valid(ps, i) && Valid(ps, j) ==>
      var p, q := ps[i], ps[j];
      && WaitPair(ps, p, q)
      && (i != j ==>
          && (p.process == i && q.process == j ==> p.tgid != q.tgid)
          && (Creating(p.pc) && Creating(q.pc) ==> p.pc.np != q.pc.np)
          && (p.pc.InJoin? && q.pc.InJoin? ==> p.pc.target != q.pc.target)
          && PidPair(p, q) && ParentPair(p, q) && ExecPair(p, q))
  }

  ghost predicate MadeBySomeone(ps: seq<Proc>, e: int) {
    Valid(ps, e) && ps[e].state.Embryo? ==>
      exists t :: Valid(ps, t) && Creating(ps[t].pc) && ps[t].pc.np == e
  }

  /** The accounting invariant of a leader. */
  predicate CountOk(ps: seq<Proc>, l: int) {
    IsLeader(ps, l) ==> ps[l].threadcount == LiveCount(ps, l)
  }

  ghost predicate Table(ps: seq<Proc>, nextpid: nat) {
    && |ps| == NPROC
    && (forall i :: SlotOk(ps, nextpid, i))
    && (forall i, j :: PairOk(ps, i, j))
    && (forall e :: MadeBySomeone(ps, e))
    && (forall l :: CountOk(ps, l))
  }

  /** The first process leads its group and has no parent. */
  predicate InitOk(ps: seq<Proc>, init: int) {
    IsLeader(ps, init) && !Spare(ps[init]) && ps[init].parent == NIL
  }

  ghost predicate Inv(s: Sys) {
    InitOk(s.procs, s.initproc) && Table(s.procs, s.nextpid)
  }

  // ---- LiveCount ----------------------------------------------------------

  lemma {:induction false} LiveCountSame(ps: seq<Proc>, qs: seq<Proc>, l: int)
    requires |ps| == |qs|
    requires forall i :: 0 <= i < |ps| ==> LiveIn(ps[i], l) == LiveIn(qs[i], l)
    ensures LiveCount(ps, l) == LiveCount(qs, l)
  {
    if ps != [] {
      LiveCountSame(ps[..|ps| - 1], qs[..|qs| - 1], l);
    }
  }

  /** One slot joins the live threads of the group. */
  lemma {:induction false} LiveCountOne(ps: seq<Proc>, qs: seq<Proc>, l: int, k: int)
    requires |ps| == |qs| && Valid(ps, k)
    requires forall i :: 0 <= i < |ps| && i != k ==> LiveIn(ps[i], l) == LiveIn(qs[i], l)
    requires !LiveIn(ps[k], l) && LiveIn(qs[k], l)
    ensures LiveCount(qs, l) == LiveCount(ps, l) + 1
  {
    var n := |ps| - 1;
    if k == n {
      LiveCountSame(ps[..n], qs[..n], l);
    } else {
      LiveCountOne(ps[..n], qs[..n], l, k);
    }
  }

  lemma {:induction false} LiveCountZero(ps: seq<Proc>, l: int)
    ensures LiveCount(ps, l) == 0 <==> forall i :: 0 <= i < |ps| ==> !LiveIn(ps[i], l)
  {
    if ps != [] {
      var n := |ps| - 1;
      LiveCountZero(ps[..n], l);
      assert forall i :: 0 <= i < n ==> ps[..n][i] == ps[i];
    }
  }

  // ---- steps that only wake, mark and schedule ----------------------------

  /** The slot keeps its identity: it may only be scheduled, put to sleep,
      woken, marked as killed, or move between calls that create nothing. */
  predicate Gentle(p: Proc, q: Proc) {
    && q.pid == p.pid && q.tgid == p.tgid && q.process == p.process && q.parent == p.parent
    && q.threadcount == p.threadcount
    && (Live(q) <==> Live(p)) && (!Live(p) ==> q.state == p.state)
    && (p.killed ==> q.killed)
    && (q.pc == p.pc || (Live(p) && !Creating(p.pc) && !Creating(q.pc)))
  }

  /** The parts of the invariant a change of the calls in progress can break. */
  predicate CallsOk(ps: seq<Proc>, i: int, j: int) {
    Valid(ps, i) && Valid(ps, j) ==>
      && JoinerOk(ps, i) && WaitPair(ps, ps[i], ps[j])
      && (i != j ==>
          && ExecPair(ps[i], ps[j])
          && (ps[i].pc.InJoin? && ps[j].pc.InJoin? ==> ps[i].pc.target != ps[j].pc.target))
  }

  lemma GentleTable(ps: seq<Proc>, qs: seq<Proc>, nextpid: nat)
    requires Table(ps, nextpid) && |qs| == |ps|
    requires forall i :: Valid(ps, i) ==> Gentle(ps[i], qs[i])
    requires forall i, j :: CallsOk(qs, i, j)
    ensures Table(qs, nextpid)
  {
    forall i ensures SlotOk(qs, nextpid, i) {
      assert SlotOk(ps, nextpid, i) && CallsOk(qs, i, i);
    }
    forall i, j ensures PairOk(qs, i, j) {
      assert PairOk(ps, i, j) && CallsOk(qs, i, j);
    }
    forall e ensures MadeBySomeone(qs, e) {
      assert MadeBySomeone(ps, e);
      if Valid(qs, e) && qs[e].state.Embryo? {
        var t :| Valid(ps, t) && Creating(ps[t].pc) && ps[t].pc.np == e;
        assert qs[t].pc == ps[t].pc;
      }
    }
    forall l ensures CountOk(qs, l) {
      assert CountOk(ps, l);
      LiveCountSame(ps, qs, l);
    }
  }

  /** Waking, scheduling and killing keep every call where it is. */
  lemma QuietTable(ps: seq<Proc>, qs: seq<Proc>, nextpid: nat)
    requires Table(ps, nextpid) && |qs| == |ps|
    requires forall i :: Valid(ps, i) ==> Gentle(ps[i], qs[i]) && qs[i].pc == ps[i].pc
    requires forall i :: Valid(ps, i) && qs[i].state.Sleeping? && qs[i].pc.InWait? ==> qs[i] == ps[i]
    ensures Table(qs, nextpid)
  {
    forall i, j ensures CallsOk(qs, i, j) {
      assert SlotOk(ps, nextpid, i) && SlotOk(ps, nextpid, j) && PairOk(ps, i, j);
    }
    GentleTable(ps, qs, nextpid);
  }

  lemma StepQuiet(s: Sys, a: Step)
    requires Inv(s) && Enabled(s, a) && Quiet(a)
    ensures Inv(Next(s, a))
  {
    QuietTable(s.procs, Next(s, a).procs, s.nextpid);
  }

  lemma ExecStartCalls(s: Sys, t: int, i: int, j: int)
    requires Enabled(s, DoExecStart(t)) && !s.procs[t].killed
    requires SlotOk(s.procs, s.nextpid, i) && SlotOk(s.procs, s.nextpid, j) && SlotOk(s.procs, s.nextpid, t)
    requires PairOk(s.procs, i, j) && PairOk(s.procs, i, t) && PairOk(s.procs, j, t) && PairOk(s.procs, t, j)
    ensures CallsOk(ExecStart(s, t).procs, i, j)
  {
  }

  lemma StepExecStart(s: Sys, t: int)
    requires Inv(s) && Enabled(s, DoExecStart(t))
    ensures Inv(ExecStart(s, t))
  {
    var ps, qs := s.procs, ExecStart(s, t).procs;
    if !ps[t].killed {
      forall i, j ensures CallsOk(qs, i, j) {
        ExecStartCalls(s, t, i, j);
      }
      GentleTable(ps, qs, s.nextpid);
    }
  }

  lemma ExecCheckCalls(s: Sys, t: int, i: int, j: int)
    requires Enabled(s, DoExecCheck(t))
    requires SlotOk(s.procs, s.nextpid, i) && SlotOk(s.procs, s.nextpid, j) && SlotOk(s.procs, s.nextpid, t)
    requires PairOk(s.procs, i, j) && PairOk(s.procs, i, t) && PairOk(s.procs, t, j)
    ensures CallsOk(ExecCheck(s, t).procs, i, j)
  {
  }

  lemma StepExecCheck(s: Sys, t: int)
    requires Inv(s) && Enabled(s, DoExecCheck(t))
    ensures Inv(ExecCheck(s, t))
  {
    var ps, qs := s.procs, ExecCheck(s, t).procs;
    forall i, j ensures CallsOk(qs, i, j) {
      ExecCheckCalls(s, t, i, j);
    }
    GentleTable(ps, qs, s.nextpid);
  }

  // ---- fork and clone -----------------------------------------------------

  predicate SameButCount(p: Proc, q: Proc) {
    q == p.(threadcount := q.threadcount, pc := q.pc) && (q.threadcount == 0 <==> p.threadcount == 0)
  }

  /** Thread t, which is making np or is about to, changes np and its own pc.
      Counts may change but do not become zero or leave zero. */
  ghost predicate MakerStep(ps: seq<Proc>, qs: seq<Proc>, t: int, np: int) {
    && |ps| == |qs| && Valid(ps, t) && Valid(ps, np) && t != np && Live(ps[t])
    && (if ps[np].state.Embryo? then Creating(ps[t].pc) && ps[t].pc.np == np
        else ps[np].state.Unused? && ps[t].pc.User?)
    && (if qs[np].state.Embryo? then Creating(qs[t].pc) && qs[t].pc.np == np else qs[t].pc.User?)
    && (forall i :: Valid(ps, i) && i != np ==> SameButCount(ps[i], qs[i]) && (i != t ==> qs[i].pc == ps[i].pc))
  }

  /** No other slot names a spare slot as its leader. */
  lemma SpareLeadsNobody(ps: seq<Proc>, n: nat, np: int, i: int)
    requires SlotOk(ps, n, i) && SlotOk(ps, n, np) && Valid(ps, np) && Valid(ps, i) && Spare(ps[np]) && i != np
    ensures ps[i].process != np
  {
  }

  lemma MakerSlot(ps: seq<Proc>, qs: seq<Proc>, n: nat, m: nat, t: int, np: int, i: int)
    requires MakerStep(ps, qs, t, np) && n <= m && i != np && Valid(ps, i)
    requires SlotOk(ps, n, i) && SlotOk(ps, n, np) && SlotOk(ps, n, t) && PairOk(ps, i, t)
    requires qs[np].process == ps[np].process || ps[np].process == NIL || ps[np].process == np
    requires CreatorOk(qs, t)
    ensures SlotOk(qs, m, i)
  {
    SpareLeadsNobody(ps, n, np, i);
    if ps[i].process != NIL {
      assert SameButCount(ps[ps[i].process], qs[ps[i].process]);
    }
    if ps[i].pc.InJoin? && ps[i].pc.target != np {
      assert SameButCount(ps[ps[i].pc.target], qs[ps[i].pc.target]);
    }
  }

  lemma MakerPair(ps: seq<Proc>, qs: seq<Proc>, n: nat, t: int, np: int, i: int, j: int)
    requires MakerStep(ps, qs, t, np) && i != np && j != np && Valid(ps, i) && Valid(ps, j)
    requires SlotOk(ps, n, i) && SlotOk(ps, n, j) && SlotOk(ps, n, np) && PairOk(ps, i, j)
    requires i != t && j != t && qs[np].state.Embryo? && Creating(ps[i].pc) ==> ps[i].pc.np != np
    ensures PairOk(qs, i, j)
  {
    SpareLeadsNobody(ps, n, np, j);
    if ps[j].process != NIL {
      assert SameButCount(ps[ps[j].process], qs[ps[j].process]);
    }
  }

  lemma MakerCount(ps: seq<Proc>, qs: seq<Proc>, t: int, np: int, l: int)
    requires MakerStep(ps, qs, t, np) && !Live(ps[np]) && !Live(qs[np]) && CountOk(ps, l)
    requires IsLeader(qs, l) ==> IsLeader(ps, l) && qs[l].threadcount == ps[l].threadcount
    ensures CountOk(qs, l)
  {
    LiveCountSame(ps, qs, l);
  }

  lemma MakerTable(ps: seq<Proc>, qs: seq<Proc>, n: nat, m: nat, t: int, np: int)
    requires Table(ps, n) && MakerStep(ps, qs, t, np) && n <= m
    requires qs[np].process == ps[np].process || ps[np].process == NIL || ps[np].process == np
    requires CreatorOk(qs, t) && SlotOk(qs, m, np)
    requires forall j :: PairOk(qs, np, j) && PairOk(qs, j, np)
    requires forall l :: CountOk(qs, l)
    ensures Table(qs, m)
  {
    assert SlotOk(ps, n, t) && SlotOk(ps, n, np);
    forall i ensures SlotOk(qs, m, i) {
      if i != np && Valid(ps, i) {
        assert SlotOk(ps, n, i) && PairOk(ps, i, t);
        MakerSlot(ps, qs, n, m, t, np, i);
      }
    }
    forall i, j ensures PairOk(qs, i, j) {
      if i == np {
        assert PairOk(qs, np, j);
      } else if j == np {
        assert PairOk(qs, i, np);
      } else if Valid(ps, i) && Valid(ps, j) {
        assert PairOk(ps, i, j) && SlotOk(ps, n, i) && SlotOk(ps, n, j) && PairOk(ps, i, t) && PairOk(ps, j, t);
        MakerPair(ps, qs, n, t, np, i, j);
      }
    }
    forall e ensures MadeBySomeone(qs, e) {
      MakerMade(ps, qs, n, t, np, e);
    }
  }

  lemma MakerMade(ps: seq<Proc>, qs: seq<Proc>, n: nat, t: int, np: int, e: int)
    requires Table(ps, n) && MakerStep(ps, qs, t, np)
    ensures MadeBySomeone(qs, e)
  {
    if e == np {
      assert Valid(qs, t);
    } else if Valid(qs, e) && qs[e].state.Embryo? {
      assert SameButCount(ps[e], qs[e]) && MadeBySomeone(ps, e);
      var u :| Valid(ps, u) && Creating(ps[u].pc) && ps[u].pc.np == e;
      assert SlotOk(ps, n, u);
      assert Creating(qs[u].pc) && qs[u].pc.np == e;
    }
  }

  lemma AllocPair(s: Sys, t: int, clone: bool, k: int, j: int)
    requires Enabled(s, DoAlloc(t, clone)) && k == FindUnused(s.procs, 0) < |s.procs|
    requires SlotOk(s.procs, s.nextpid, k) && SlotOk(s.procs, s.nextpid, t) && SlotOk(s.procs, s.nextpid, j)
    requires PairOk(s.procs, k, j) && PairOk(s.procs, j, k)
    ensures PairOk(Alloc(s, t, clone).procs, k, j) && PairOk(Alloc(s, t, clone).procs, j, k)
  {
  }

  lemma StepAlloc(s: Sys, t: int, clone: bool)
    requires Inv(s) && Enabled(s, DoAlloc(t, clone))
    ensures Inv(Alloc(s, t, clone))
  {
    var s' := Alloc(s, t, clone);
    var ps, qs, n, m := s.procs, s'.procs, s.nextpid, s'.nextpid;
    var k := FindUnused(ps, 0);
    if k < |ps| {
      assert SlotOk(ps, n, k) && SlotOk(ps, n, t);
      forall j ensures PairOk(qs, k, j) && PairOk(qs, j, k) {
        AllocPair(s, t, clone, k, j);
      }
      forall l ensures CountOk(qs, l) {
        MakerCount(ps, qs, t, k, l);
      }
      MakerTable(ps, qs, n, m, t, k);
    }
  }

  lemma AllocFailPair(s: Sys, t: int, np: int, j: int)
    requires Enabled(s, DoAllocFail(t)) && np == s.procs[t].pc.np
    requires SlotOk(s.procs, s.nextpid, np) && SlotOk(s.procs, s.nextpid, t) && SlotOk(s.procs, s.nextpid, j)
    requires PairOk(s.procs, np, j) && PairOk(s.procs, j, np)
    ensures PairOk(AllocFail(s, t, np).procs, np, j) && PairOk(AllocFail(s, t, np).procs, j, np)
  {
  }

  lemma StepAllocFail(s: Sys, t: int)
    requires Inv(s) && Enabled(s, DoAllocFail(t))
    ensures Inv(AllocFail(s, t, s.procs[t].pc.np))
  {
    var np := s.procs[t].pc.np;
    var ps, qs, n := s.procs, AllocFail(s, t, np).procs, s.nextpid;
    assert SlotOk(ps, n, np) && SlotOk(ps, n, t);
    forall j ensures PairOk(qs, np, j) && PairOk(qs, j, np) {
      AllocFailPair(s, t, np, j);
    }
    forall l ensures CountOk(qs, l) {
      MakerCount(ps, qs, t, np, l);
    }
    MakerTable(ps, qs, n, n, t, np);
  }

  /** A spare slot that leads at most itself has count zero. */
  lemma SpareCount(ps: seq<Proc>, n: nat, l: int)
    requires Table(ps, n) && Valid(ps, l) && Spare(ps[l]) && (ps[l].process == l || ps[l].process == NIL)
    ensures LiveCount(ps, l) == 0 && ps[l].threadcount == 0
  {
    forall i | 0 <= i < |ps| ensures !LiveIn(ps[i], l) {
      assert SlotOk(ps, n, i) && SlotOk(ps, n, l);
    }
    LiveCountZero(ps, l);
    assert SlotOk(ps, n, l) && CountOk(ps, l);
  }

  lemma ForkFailPair(s: Sys, t: int, np: int, j: int)
    requires Enabled(s, DoForkFail(t)) && np == s.procs[t].pc.np
    requires SlotOk(s.procs, s.nextpid, np) && SlotOk(s.procs, s.nextpid, t) && SlotOk(s.procs, s.nextpid, j)
    requires PairOk(s.procs, np, j) && PairOk(s.procs, j, np)
    ensures PairOk(ForkFail(s, t, np).procs, np, j) && PairOk(ForkFail(s, t, np).procs, j, np)
  {
  }

  lemma StepForkFail(s: Sys, t: int)
    requires Inv(s) && Enabled(s, DoForkFail(t))
    ensures Inv(ForkFail(s, t, s.procs[t].pc.np))
  {
    var np := s.procs[t].pc.np;
    var ps, qs, n := s.procs, ForkFail(s, t, np).procs, s.nextpid;
    assert SlotOk(ps, n, np) && SlotOk(ps, n, t);
    forall j ensures PairOk(qs, np, j) && PairOk(qs, j, np) {
      ForkFailPair(s, t, np, j);
    }
    SpareCount(ps, n, np);
    forall l ensures CountOk(qs, l) {
      assert CountOk(ps, l);
      LiveCountSame(ps, qs, l);
    }
    MakerTable(ps, qs, n, n, t, np);
  }

  lemma ForkChildPair(s: Sys, t: int, pg: nat, j: int)
    requires Enabled(s, DoForkSetup(t, pg))
    requires forall i :: SlotOk(s.procs, s.nextpid, i)
    requires PairOk(s.procs, s.procs[t].pc.np, j) && PairOk(s.procs, j, s.procs[t].pc.np)
    ensures PairOk(ForkSetup(s, t, s.procs[t].pc.np, pg).procs, s.procs[t].pc.np, j)
    ensures PairOk(ForkSetup(s, t, s.procs[t].pc.np, pg).procs, j, s.procs[t].pc.np)
  {
    var np := s.procs[t].pc.np;
    assert SlotOk(s.procs, s.nextpid, np) && SlotOk(s.procs, s.nextpid, t) && SlotOk(s.procs, s.nextpid, j);
  }

  lemma StepForkSetup(s: Sys, t: int, pg: nat)
    requires Inv(s) && Enabled(s, DoForkSetup(t, pg))
    ensures Inv(ForkSetup(s, t, s.procs[t].pc.np, pg))
  {
    var np := s.procs[t].pc.np;
    var ps, qs, n := s.procs, ForkSetup(s, t, np, pg).procs, s.nextpid;
    assert SlotOk(ps, n, np) && SlotOk(ps, n, t);
    forall j ensures PairOk(qs, np, j) && PairOk(qs, j, np) {
      assert PairOk(ps, np, j) && PairOk(ps, j, np);
      ForkChildPair(s, t, pg, j);
    }
    SpareCount(ps, n, np);
    forall l ensures CountOk(qs, l) {
      assert CountOk(ps, l);
      if l == np {
        LiveCountOne(ps, qs, l, np);
      } else {
        LiveCountSame(ps, qs, l);
      }
    }
    MakerTable(ps, qs, n, n, t, np);
  }

  lemma CloneGroupPair(s: Sys, t: int, j: int)
    requires Inv(s) && Enabled(s, DoCloneGroup(t))
    ensures PairOk(CloneSetGroup(s, t, s.procs[t].pc.np).procs, s.procs[t].pc.np, j)
    ensures PairOk(CloneSetGroup(s, t, s.procs[t].pc.np).procs, j, s.procs[t].pc.np)
  {
    var ps, n, np := s.procs, s.nextpid, s.procs[t].pc.np;
    assert SlotOk(ps, n, np) && SlotOk(ps, n, t) && SlotOk(ps, n, j);
    assert PairOk(ps, np, j) && PairOk(ps, j, np) && PairOk(ps, j, t) && PairOk(ps, np, t);
  }

  lemma StepCloneGroup(s: Sys, t: int)
    requires Inv(s) && Enabled(s, DoCloneGroup(t))
    ensures Inv(CloneSetGroup(s, t, s.procs[t].pc.np))
  {
    var np := s.procs[t].pc.np;
    var ps, qs, n := s.procs, CloneSetGroup(s, t, np).procs, s.nextpid;
    assert SlotOk(ps, n, np) && SlotOk(ps, n, t);
    forall j ensures PairOk(qs, np, j) && PairOk(qs, j, np) {
      CloneGroupPair(s, t, j);
    }
    forall l ensures CountOk(qs, l) {
      MakerCount(ps, qs, t, np, l);
    }
    MakerTable(ps, qs, n, n, t, np);
  }

  /** A group with a live thread has a positive count. */
  lemma LiveGroup(ps: seq<Proc>, n: nat, t: int)
    requires Table(ps, n) && Valid(ps, t) && Live(ps[t])
    ensures IsLeader(ps, ps[t].process) && ps[ps[t].process].threadcount >= 1
  {
    assert SlotOk(ps, n, t) && CountOk(ps, ps[t].process);
    LiveCountZero(ps, ps[t].process);
    assert LiveIn(ps[t], ps[t].process);
  }

  lemma CloneParentPair(s: Sys, t: int, j: int)
    requires Inv(s) && Enabled(s, DoCloneParent(t))
    ensures PairOk(CloneSetParent(s, t, s.procs[t].pc.np).procs, s.procs[t].pc.np, j)
    ensures PairOk(CloneSetParent(s, t, s.procs[t].pc.np).procs, j, s.procs[t].pc.np)
  {
    var ps, n, np := s.procs, s.nextpid, s.procs[t].pc.np;
    LiveGroup(ps, n, t);
    assert SlotOk(ps, n, np) && SlotOk(ps, n, t) && SlotOk(ps, n, j);
    assert PairOk(ps, np, j) && PairOk(ps, j, np) && PairOk(ps, j, t);
  }

  lemma StepCloneParent(s: Sys, t: int)
    requires Inv(s) && Enabled(s, DoCloneParent(t))
    ensures Inv(CloneSetParent(s, t, s.procs[t].pc.np))
  {
    var np := s.procs[t].pc.np;
    var ps, qs, n := s.procs, CloneSetParent(s, t, np).procs, s.nextpid;
    assert SlotOk(ps, n, np) && SlotOk(ps, n, t);
    forall j ensures PairOk(qs, np, j) && PairOk(qs, j, np) {
      CloneParentPair(s, t, j);
    }
    forall l ensures CountOk(qs, l) {
      MakerCount(ps, qs, t, np, l);
    }
    MakerTable(ps, qs, n, n, t, np);
  }

  lemma CloneFinishPair(s: Sys, t: int, j: int)
    requires Inv(s) && Enabled(s, DoCloneFinish(t))
    ensures PairOk(CloneFinish(s, t, s.procs[t].pc.np).procs, s.procs[t].pc.np, j)
    ensures PairOk(CloneFinish(s, t, s.procs[t].pc.np).procs, j, s.procs[t].pc.np)
  {
    var ps, n, np := s.procs, s.nextpid, s.procs[t].pc.np;
    LiveGroup(ps, n, t);
    assert SlotOk(ps, n, np) && SlotOk(ps, n, t) && SlotOk(ps, n, j);
    assert PairOk(ps, np, j) && PairOk(ps, j, np) && PairOk(ps, j, t) && PairOk(ps, t, j);
  }

  lemma CloneFinishCount(s: Sys, t: int, l: int)
    requires Inv(s) && Enabled(s, DoCloneFinish(t))
    ensures CountOk(CloneFinish(s, t, s.procs[t].pc.np).procs, l)
  {
    var np := s.procs[t].pc.np;
    var ps, qs := s.procs, CloneFinish(s, t, np).procs;
    assert SlotOk(ps, s.nextpid, t) && CountOk(ps, l);
    if l == ps[t].process && !ps[t].killed {
      LiveCountOne(ps, qs, l, np);
    } else {
      LiveCountSame(ps, qs, l);
    }
  }

  lemma StepCloneFinish(s: Sys, t: int)
    requires Inv(s) && Enabled(s, DoCloneFinish(t))
    ensures Inv(CloneFinish(s, t, s.procs[t].pc.np))
  {
    var np := s.procs[t].pc.np;
    var ps, qs, n := s.procs, CloneFinish(s, t, np).procs, s.nextpid;
    assert SlotOk(ps, n, np) && SlotOk(ps, n, t);
    LiveGroup(ps, n, t);
    forall j ensures PairOk(qs, np, j) && PairOk(qs, j, np) {
      CloneFinishPair(s, t, j);
    }
    forall l ensures CountOk(qs, l) {
      CloneFinishCount(s, t, l);
    }
    MakerTable(ps, qs, n, n, t, np);
  }

  // ---- reaping ------------------------------------------------------------

  /** A group whose count is zero consists of ZOMBIEs only. */
  lemma HarvestZombie(ps: seq<Proc>, n: nat, j: int, i: int)
    requires Table(ps, n) && Valid(ps, j) && ps[j].parent != NIL && Harvestable(ps, ps[j])
    requires Valid(ps, i) && ps[i].process == ps[j].process
    ensures ps[i].state.Zombie?
  {
    var l := ps[j].process;
    assert SlotOk(ps, n, j) && SlotOk(ps, n, i) && SlotOk(ps, n, l) && CountOk(ps, l);
    LiveCountZero(ps, l);
    assert !LiveIn(ps[i], l);
    if Spare(ps[l]) {
      EmbryoGroup(ps, n, j);
    }
    if ps[i].state.Embryo? {
      EmbryoGroup(ps, n, i);
    }
  }

  /** An embryo that has a parent, or names another slot as its leader, belongs
      to a group with a live thread. */
  lemma EmbryoGroup(ps: seq<Proc>, n: nat, e: int)
    requires Table(ps, n) && Valid(ps, e) && ps[e].state.Embryo? && ps[e].process != NIL
    requires ps[e].parent != NIL || ps[e].process != e
    ensures LiveCount(ps, ps[e].process) != 0
  {
    assert MadeBySomeone(ps, e);
    var u :| Valid(ps, u) && Creating(ps[u].pc) && ps[u].pc.np == e;
    assert SlotOk(ps, n, u);
    LiveCountZero(ps, ps[e].process);
    assert LiveIn(ps[u], ps[e].process);
  }

  /** qs is ps with the slots of rs given back. */
  ghost predicate RecycleStep(ps: seq<Proc>, qs: seq<Proc>, rs: set<int>) {
    && |qs| == |ps|
    && (forall i :: Valid(ps, i) ==> qs[i] == if i in rs then Recycled(ps[i]) else ps[i])
    && (forall i :: Valid(ps, i) && i in rs ==> ps[i].state.Zombie?)
    && (forall i :: Valid(ps, i) && i !in rs ==> ps[i].process !in rs)
    && (forall i :: Valid(ps, i) && ps[i].pc.InJoin? ==> ps[i].pc.target !in rs)
  }

  lemma RecycleSlot(ps: seq<Proc>, qs: seq<Proc>, n: nat, rs: set<int>, i: int)
    requires RecycleStep(ps, qs, rs) && SlotOk(ps, n, i) && n > 0
    ensures SlotOk(qs, n, i)
  {
  }

  lemma RecyclePair(ps: seq<Proc>, qs: seq<Proc>, n: nat, rs: set<int>, i: int, j: int)
    requires RecycleStep(ps, qs, rs) && SlotOk(ps, n, i) && SlotOk(ps, n, j) && PairOk(ps, i, j)
    ensures PairOk(qs, i, j)
  {
  }

  lemma RecycleTable(ps: seq<Proc>, qs: seq<Proc>, n: nat, rs: set<int>)
    requires Table(ps, n) && RecycleStep(ps, qs, rs)
    ensures Table(qs, n)
  {
    assert SlotOk(ps, n, 0);
    forall i ensures SlotOk(qs, n, i) {
      assert SlotOk(ps, n, i);
      RecycleSlot(ps, qs, n, rs, i);
    }
    forall i, j ensures PairOk(qs, i, j) {
      assert SlotOk(ps, n, i) && SlotOk(ps, n, j) && PairOk(ps, i, j);
      RecyclePair(ps, qs, n, rs, i, j);
    }
    forall e ensures MadeBySomeone(qs, e) {
      RecycleMade(ps, qs, n, rs, e);
    }
    forall l ensures CountOk(qs, l) {
      assert CountOk(ps, l);
      if IsLeader(qs, l) {
        LiveCountSame(ps, qs, l);
      }
    }
  }

  lemma RecycleMade(ps: seq<Proc>, qs: seq<Proc>, n: nat, rs: set<int>, e: int)
    requires Table(ps, n) && RecycleStep(ps, qs, rs)
    ensures MadeBySomeone(qs, e)
  {
    if Valid(qs, e) && qs[e].state.Embryo? {
      assert MadeBySomeone(ps, e);
      var u :| Valid(ps, u) && Creating(ps[u].pc) && ps[u].pc.np == e;
      assert SlotOk(ps, n, u);
      assert Creating(qs[u].pc) && qs[u].pc.np == e;
    }
  }

  // ---- wait ---------------------------------------------------------------

  function ReapedSlot(p: Proc, tgid: nat): Proc {
    if p.tgid == tgid then Recycled(p) else p
  }

  /** wait's reaping loop in closed form.  When every slot of the group is a
      ZOMBIE it never panics with "undead", and if it completes it has given
      back exactly the slots of that group. */
  lemma {:induction false} ReapGroupSlots(s: Sys, tgid: nat, k: nat)
    requires k <= |s.procs| && s.fault == NoFault
    requires forall i :: k <= i < |s.procs| && s.procs[i].tgid == tgid ==> s.procs[i].state.Zombie?
    ensures ReapGroup(s, tgid, k).fault != PanicUndead
    ensures ReapGroup(s, tgid, k).nextpid == s.nextpid && ReapGroup(s, tgid, k).initproc == s.initproc
    ensures ReapGroup(s, tgid, k).fault == NoFault ==>
              && |ReapGroup(s, tgid, k).procs| == |s.procs|
              && forall i :: 0 <= i < |s.procs| ==>
                   ReapGroup(s, tgid, k).procs[i] == if i < k then s.procs[i] else ReapedSlot(s.procs[i], tgid)
    decreases |s.procs| - k
  {
    if k < |s.procs| {
      var p := s.procs[k];
      if p.tgid != tgid {
        ReapGroupSlots(s, tgid, k + 1);
      } else if p.pid == p.tgid && p.process == k {
        if p.pgdir in s.dirs {
          ReapGroupSlots(s.(procs := s.procs[k := Recycled(p)], dirs := s.dirs - {p.pgdir}), tgid, k + 1);
        }
      } else {
        ReapGroupSlots(s.(procs := s.procs[k := Recycled(p)]), tgid, k + 1);
      }
    }
  }

  /** A reaping loop that completes has given back every slot of the group, all of
      them ZOMBIEs, and no other. */
  lemma {:induction false} ReapGroupBack(s: Sys, tgid: nat, k: nat)
    requires k <= |s.procs| && ReapGroup(s, tgid, k).fault == NoFault
    ensures |ReapGroup(s, tgid, k).procs| == |s.procs|
    ensures forall i :: 0 <= i < |s.procs| ==>
      var p, q := s.procs[i], ReapGroup(s, tgid, k).procs[i];
      if k <= i && p.tgid == tgid then p.state.Zombie? && Blank(q) else q == p
    decreases |s.procs| - k
  {
    if k < |s.procs| {
      var p := s.procs[k];
      if p.tgid != tgid {
        ReapGroupBack(s, tgid, k + 1);
      } else {
        var frees := p.pid == p.tgid && p.process == k;
        var s1 := s.(procs := s.procs[k := Recycled(p)], dirs := if frees then s.dirs - {p.pgdir} else s.dirs);
        assert p.state.Zombie? && ReapGroup(s, tgid, k) == ReapGroup(s1, tgid, k + 1);
        ReapGroupBack(s1, tgid, k + 1);
        assert forall i :: k < i < |s.procs| ==> s1.procs[i] == s.procs[i];
      }
    }
  }

  lemma GotoTable(s: Sys, t: int)
    requires Inv(s) && Valid(s.procs, t) && Live(s.procs[t]) && !Creating(s.procs[t].pc)
    requires s.procs[t].state.Running?
    ensures Inv(Goto(s, t, User))
  {
    var ps, qs := s.procs, Goto(s, t, User).procs;
    forall i, j ensures CallsOk(qs, i, j) {
      assert SlotOk(ps, s.nextpid, i) && SlotOk(ps, s.nextpid, j) && PairOk(ps, i, j);
    }
    GentleTable(ps, qs, s.nextpid);
  }

  /** Going to sleep in wait: the scan has found no empty child group. */
  lemma WaitSleep(s: Sys, t: int)
    requires Inv(s) && Enabled(s, DoWait(t))
    requires FindHarvest(s.procs, s.procs[t].process, 0) == |s.procs|
    ensures Inv(SleepOn(s, t, OnProc(s.procs[t].process), InWait))
  {
    var ps, qs := s.procs, SleepOn(s, t, OnProc(s.procs[t].process), InWait).procs;
    forall i, j ensures CallsOk(qs, i, j) {
      assert SlotOk(ps, s.nextpid, i) && SlotOk(ps, s.nextpid, j) && PairOk(ps, i, j);
    }
    GentleTable(ps, qs, s.nextpid);
  }

  /** The slots of a harvested group, by tgid as by process pointer. */
  lemma HarvestGroup(ps: seq<Proc>, n: nat, k: int, i: int)
    requires Table(ps, n) && Valid(ps, k) && ps[k].parent != NIL && Harvestable(ps, ps[k]) && Valid(ps, i)
    ensures ps[i].tgid == ps[k].tgid <==> ps[i].process == ps[k].process
    ensures ps[i].process == ps[k].process ==> ps[i].state.Zombie?
  {
    assert SlotOk(ps, n, k) && SlotOk(ps, n, i);
    assert PairOk(ps, ps[i].process, ps[k].process);
    if ps[i].process == ps[k].process {
      HarvestZombie(ps, n, k, i);
    }
  }

  lemma StepWait(s: Sys, t: int)
    requires Inv(s) && Enabled(s, DoWait(t))
    ensures Wait(s, t).fault != PanicUndead
    ensures Wait(s, t).fault == NoFault ==> Inv(Wait(s, t))
  {
    var me := s.procs[t];
    var k := FindHarvest(s.procs, me.process, 0);
    if !HasChild(s.procs, me.process) || me.killed {
      GotoTable(s, t);
    } else if k == |s.procs| {
      WaitSleep(s, t);
    } else {
      GotoTable(s, t);
      WaitReaps(s, t, k);
    }
  }

  /** wait on a found child recycles that child's whole group and nothing else. */
  lemma WaitReaps(s: Sys, t: int, k: int)
    requires Inv(s) && Enabled(s, DoWait(t)) && Inv(Goto(s, t, User))
    requires Valid(s.procs, k) && s.procs[k].parent == s.procs[t].process && Harvestable(s.procs, s.procs[k])
    ensures
      var s1 := Goto(s, t, User);
      var s2 := ReapGroup(s1, s.procs[k].tgid, 0);
      && s2.fault != PanicUndead
      && (s2.fault == NoFault ==>
          && Inv(s2) && |s2.procs| == |s.procs|
          && forall i :: Valid(s.procs, i) ==>
               s2.procs[i] == if s.procs[i].process == s.procs[k].process then Recycled(s1.procs[i]) else s1.procs[i])
  {
    var s1 := Goto(s, t, User);
    var s2 := ReapGroup(s1, s.procs[k].tgid, 0);
    var ps, n, l := s1.procs, s.nextpid, s.procs[k].process;
    assert SlotOk(s.procs, n, t) && s.procs[t].process != NIL;
    forall i | Valid(ps, i)
      ensures ps[i].tgid == ps[k].tgid <==> ps[i].process == l
      ensures ps[i].process == l ==> ps[i].state.Zombie?
    {
      HarvestGroup(ps, n, k, i);
    }
    ReapGroupSlots(s1, s.procs[k].tgid, 0);
    if s2.fault == NoFault {
      ReapKeeps(s1, k, s2.procs);
    }
  }

  lemma ReapKeeps(s: Sys, k: int, qs: seq<Proc>)
    requires Inv(s) && Valid(s.procs, k) && s.procs[k].parent != NIL && Harvestable(s.procs, s.procs[k])
    requires forall i :: Valid(s.procs, i) && s.procs[i].process == s.procs[k].process ==> s.procs[i].state.Zombie?
    requires |qs| == |s.procs|
    requires forall i :: Valid(s.procs, i) ==>
      qs[i] == if s.procs[i].process == s.procs[k].process then Recycled(s.procs[i]) else s.procs[i]
    ensures Inv(s.(procs := qs))
  {
    var ps, n, l := s.procs, s.nextpid, s.procs[k].process;
    var rs := set i | 0 <= i < |ps| && ps[i].process == l;
    forall i | Valid(ps, i)
      ensures i !in rs ==> ps[i].process !in rs
      ensures ps[i].pc.InJoin? ==> ps[i].pc.target !in rs
    {
      assert SlotOk(ps, n, i);
    }
    RecycleTable(ps, qs, n, rs);
    assert PairOk(ps, s.initproc, k);
  }

  // ---- join ---------------------------------------------------------------

  lemma JoinSleep(s: Sys, t: int, j: int, pid: nat)
    requires Inv(s) && IsRunning(s, t) && Valid(s.procs, j) && s.procs[j].process == s.procs[t].process
    requires !Creating(s.procs[t].pc) && !Execing(s.procs[t].pc) && NoOtherJoiner(s, t, j)
    ensures Inv(SleepOn(s, t, OnProc(s.procs[t].process), InJoin(j, pid)))
  {
    var ps, qs := s.procs, SleepOn(s, t, OnProc(s.procs[t].process), InJoin(j, pid)).procs;
    forall i, k ensures CallsOk(qs, i, k) {
      assert SlotOk(ps, s.nextpid, i) && SlotOk(ps, s.nextpid, k) && PairOk(ps, i, k);
    }
    GentleTable(ps, qs, s.nextpid);
  }

  /** join gives back its own target or nothing. */
  lemma JoinReaps(s: Sys, t: int, j: int)
    requires Inv(s) && Valid(s.procs, j) && s.procs[j].state.Zombie? && j != s.procs[j].process
    requires forall u :: Valid(s.procs, u) && s.procs[u].pc.InJoin? ==> s.procs[u].pc.target != j
    ensures Inv(s.(procs := s.procs[j := Recycled(s.procs[j])]))
  {
    var ps := s.procs;
    forall i | Valid(ps, i) && i != j ensures ps[i].process != j {
      assert SlotOk(ps, s.nextpid, i);
    }
    RecycleTable(ps, ps[j := Recycled(ps[j])], s.nextpid, {j});
  }

  lemma StepJoin(s: Sys, t: int, j: int, pid: nat)
    requires Inv(s) && IsRunning(s, t) && Valid(s.procs, j) && s.procs[j].process == s.procs[t].process
    requires !Creating(s.procs[t].pc) && !Execing(s.procs[t].pc) && NoOtherJoiner(s, t, j)
    ensures Inv(JoinOn(s, t, j, pid))
  {
    GotoTable(s, t);
    var p := s.procs[j];
    if !p.state.Zombie? {
      if !s.procs[t].killed {
        JoinSleep(s, t, j, pid);
      }
    } else if p.tgid != p.pid && j != p.process {
      JoinReaps(Goto(s, t, User), t, j);
    }
  }

  // ---- exit ---------------------------------------------------------------

  predicate HasDeadChild(ps: seq<Proc>, from: int, k: nat) {
    exists i :: k <= i < |ps| && ps[i].parent == from && ps[i].state.Zombie?
  }

  function Passed(p: Proc, from: int, to: int, wake: bool): Proc {
    var q := Reparented(p, from, to);
    if wake then Woken(q, OnProc(to)) else q
  }

  /** exit's loop in closed form: every child is handed over, and init is woken
      exactly when one of them is a ZOMBIE. */
  lemma {:induction false} PassChildrenClosed(ps: seq<Proc>, from: int, to: int, k: nat)
    requires k <= |ps|
    ensures forall i :: 0 <= i < |ps| ==>
      PassChildren(ps, from, to, k)[i] ==
        if i < k then (if HasDeadChild(ps, from, k) then Woken(ps[i], OnProc(to)) else ps[i])
        else Passed(ps[i], from, to, HasDeadChild(ps, from, k))
    decreases |ps| - k
  {
    if k < |ps| {
      var qs := ps[k := Reparented(ps[k], from, to)];
      var dead := ps[k].parent == from && ps[k].state.Zombie?;
      var rs := if dead then Wakeup1(qs, OnProc(to)) else qs;
      assert forall i :: k < i < |ps| ==>
        (rs[i].parent == from && rs[i].state.Zombie? <==> ps[i].parent == from && ps[i].state.Zombie?);
      assert HasDeadChild(ps, from, k) <==> dead || HasDeadChild(rs, from, k + 1);
      PassChildrenClosed(rs, from, to, k + 1);
    }
  }

  /** What exit does to the slot i of another thread, and to its own. */
  function ExitSlot(ps: seq<Proc>, init: int, t: int, i: int): Proc
    requires Valid(ps, t) && Valid(ps, i)
  {
    var me := ps[t];
    var p1 := Woken(Woken(ps[i], OnProc(me.parent)), OnProc(me.process));
    var p2 := if i == me.process then p1.(threadcount := p1.threadcount - 1) else p1;
    var p3 := Passed(p2, t, init, HasDeadChild(ps, t, 0));
    if i == t then p3.(state := Zombie) else p3
  }

  lemma ExitClosed(s: Sys, t: int)
    requires Valid(s.procs, t) && Valid(s.procs, s.procs[t].process)
    ensures |Exit(s, t).procs| == |s.procs|
    ensures forall i :: Valid(s.procs, i) ==> Exit(s, t).procs[i] == ExitSlot(s.procs, s.initproc, t, i)
  {
    var ps, me := s.procs, s.procs[t];
    var p1 := Wakeup1(Wakeup1(ps, OnProc(me.parent)), OnProc(me.process));
    var p2 := p1[me.process := p1[me.process].(threadcount := p1[me.process].threadcount - 1)];
    ExitDead(ps, p2, t);
    PassChildrenClosed(p2, t, s.initproc, 0);
  }

  /** The wakeups and the count leave the dead children as they are. */
  lemma ExitDead(ps: seq<Proc>, qs: seq<Proc>, t: int)
    requires |ps| == |qs|
    requires forall i :: 0 <= i < |ps| ==>
      qs[i].parent == ps[i].parent && (qs[i].state.Zombie? <==> ps[i].state.Zombie?)
    ensures HasDeadChild(qs, t, 0) <==> HasDeadChild(ps, t, 0)
  {
  }

  /** What exit changes at slot i: the parent, the count, being asleep. */
  predicate ExitRel(ps: seq<Proc>, qs: seq<Proc>, init: int, t: int, i: int)
    requires Valid(ps, t) && |qs| == |ps|
  {
    Valid(ps, i) ==>
      var me, p, q := ps[t], ps[i], qs[i];
      && q == p.(state := q.state, parent := q.parent, threadcount := q.threadcount)
      && q.parent == (if p.parent == t then init else p.parent)
      && q.threadcount == (if i == me.process then p.threadcount - 1 else p.threadcount)
      && (if i == t then q.state.Zombie? else q.state == p.state || (p.state.Sleeping? && q.state.Runnable?))
      && (q.state.Sleeping? ==>
          && q.chan != OnProc(me.parent) && q.chan != OnProc(me.process)
          && (HasDeadChild(ps, t, 0) ==> q.chan != OnProc(init)))
  }

  ghost predicate ExitStep(ps: seq<Proc>, qs: seq<Proc>, init: int, t: int) {
    && |qs| == |ps| && Valid(ps, t) && Valid(ps, ps[t].process) && ps[t].state.Running? && ps[t].pc.User?
    && InitOk(ps, init) && t != init
    && (forall i :: ExitRel(ps, qs, init, t, i))
  }

  lemma ExitIsStep(s: Sys, t: int)
    requires Inv(s) && Enabled(s, DoExit(t))
    ensures ExitStep(s.procs, Exit(s, t).procs, s.initproc, t)
  {
    ExitClosed(s, t);
    var qs := Exit(s, t).procs;
    forall i ensures ExitRel(s.procs, qs, s.initproc, t, i) {
      if Valid(s.procs, i) {
        assert qs[i] == ExitSlot(s.procs, s.initproc, t, i);
        ExitSlotRel(s.procs, qs, s.initproc, t, i);
      }
    }
  }

  lemma ExitSlotRel(ps: seq<Proc>, qs: seq<Proc>, init: int, t: int, i: int)
    requires Valid(ps, t) && Valid(ps, i) && |qs| == |ps| && ps[t].state.Running?
    requires qs[i] == ExitSlot(ps, init, t, i)
    ensures ExitRel(ps, qs, init, t, i)
  {
  }

  lemma ExitSlotKeeps(ps: seq<Proc>, qs: seq<Proc>, n: nat, init: int, t: int, i: int)
    requires ExitStep(ps, qs, init, t) && SlotOk(ps, n, i) && SlotOk(ps, n, t)
    ensures SlotOk(qs, n, i)
  {
    if Valid(ps, i) {
      assert ExitRel(ps, qs, init, t, i) && ExitRel(ps, qs, init, t, ps[i].process);
      if Creating(ps[i].pc) {
        assert ExitRel(ps, qs, init, t, ps[i].pc.np);
      }
      if ps[i].pc.InJoin? {
        assert ExitRel(ps, qs, init, t, ps[i].pc.target);
      }
    }
  }

  lemma ExitPairKeeps(ps: seq<Proc>, qs: seq<Proc>, init: int, t: int, i: int, j: int)
    requires ExitStep(ps, qs, init, t) && PairOk(ps, i, j) && Valid(ps, i) && Valid(ps, j)
    requires WaitPair(qs, qs[i], qs[j])
    ensures PairOk(qs, i, j)
  {
    assert ExitRel(ps, qs, init, t, i) && ExitRel(ps, qs, init, t, j);
  }

  /** A child group is empty after t's exit only if one of t's two wakeups, or
      the one of init, reaches every thread that may be waiting for it. */
  lemma ExitWakes(ps: seq<Proc>, qs: seq<Proc>, n: nat, init: int, t: int, i: int, j: int)
    requires Table(ps, n) && ExitStep(ps, qs, init, t) && Valid(ps, i) && Valid(ps, j)
    requires forall l :: CountOk(qs, l)
    ensures WaitPair(qs, qs[i], qs[j])
  {
    assert ExitRel(ps, qs, init, t, i) && ExitRel(ps, qs, init, t, j);
    assert SlotOk(ps, n, i) && SlotOk(ps, n, j) && SlotOk(ps, n, t) && PairOk(ps, i, j);
    if qs[i].state.Sleeping? && qs[i].pc.InWait? && qs[j].parent == qs[i].process && Harvestable(qs, qs[j]) {
      if ps[j].process == ps[t].process {
        LastExit(ps, qs, n, init, t, j);
      } else {
        assert ExitRel(ps, qs, init, t, ps[j].process);
        HarvestZombie(ps, n, j, j);
      }
    }
  }

  lemma LastExit(ps: seq<Proc>, qs: seq<Proc>, n: nat, init: int, t: int, j: int)
    requires Table(ps, n) && ExitStep(ps, qs, init, t) && Valid(ps, j)
    requires forall l :: CountOk(qs, l)
    requires ps[j].process == ps[t].process && Harvestable(qs, qs[j]) && ps[j].parent != NIL
    ensures ps[j].parent == ps[t].parent
    ensures ps[j].parent == t ==> HasDeadChild(ps, t, 0)
  {
    var l := ps[t].process;
    assert SlotOk(ps, n, j) && SlotOk(ps, n, t) && SlotOk(ps, n, l) && CountOk(qs, l);
    assert ExitRel(ps, qs, init, t, l) && ExitRel(ps, qs, init, t, j);
    LiveCountZero(qs, l);
    assert forall u :: 0 <= u < |qs| ==> !LiveIn(qs[u], l);
    OnlyDead(ps, qs, n, init, t, j);
    OnlyDead(ps, qs, n, init, t, l);
    assert PairOk(ps, j, t) && PairOk(ps, l, t);
    if ps[j].parent == t {
      var z := if j != t then j else l;
      assert ps[z].parent == t && ps[z].state.Zombie?;
    }
  }

  lemma OnlyDead(ps: seq<Proc>, qs: seq<Proc>, n: nat, init: int, t: int, j: int)
    requires Table(ps, n) && ExitStep(ps, qs, init, t) && Valid(ps, j)
    requires forall u :: 0 <= u < |qs| ==> !LiveIn(qs[u], ps[t].process)
    requires ps[j].process == ps[t].process && (ps[j].parent != NIL || j == ps[t].process)
    ensures j == t || ps[j].state.Zombie?
  {
    assert SlotOk(ps, n, j) && SlotOk(ps, n, t) && ExitRel(ps, qs, init, t, j);
    if j != t {
      assert !LiveIn(qs[j], ps[t].process);
      if ps[j].state.Embryo? {
        MakerStays(ps, qs, n, init, t, j);
      }
    }
  }

  /** The thread that is making an embryo is not the one that exits. */
  lemma MakerStays(ps: seq<Proc>, qs: seq<Proc>, n: nat, init: int, t: int, e: int)
    requires Table(ps, n) && ExitStep(ps, qs, init, t)
    requires Valid(ps, e) && ps[e].state.Embryo? && (ps[e].parent != NIL || ps[e].process != e)
    requires ps[e].process != NIL
    ensures exists u :: 0 <= u < |qs| && LiveIn(qs[u], ps[e].process)
  {
    assert MadeBySomeone(ps, e);
    var u :| Valid(ps, u) && Creating(ps[u].pc) && ps[u].pc.np == e;
    assert SlotOk(ps, n, u) && ExitRel(ps, qs, init, t, u);
    assert LiveIn(qs[u], ps[e].process);
  }

  lemma ExitCount(ps: seq<Proc>, qs: seq<Proc>, init: int, t: int, l: int)
    requires ExitStep(ps, qs, init, t) && CountOk(ps, l)
    ensures CountOk(qs, l)
  {
    forall i | 0 <= i < |ps| && (i != t || l != ps[t].process) ensures LiveIn(ps[i], l) == LiveIn(qs[i], l) {
      assert ExitRel(ps, qs, init, t, i);
    }
    assert ExitRel(ps, qs, init, t, l) && ExitRel(ps, qs, init, t, t);
    if l == ps[t].process {
      LiveCountOne(qs, ps, l, t);
    } else {
      LiveCountSame(ps, qs, l);
    }
  }

  lemma ExitMade(ps: seq<Proc>, qs: seq<Proc>, n: nat, init: int, t: int, e: int)
    requires Table(ps, n) && ExitStep(ps, qs, init, t)
    ensures MadeBySomeone(qs, e)
  {
    if Valid(qs, e) && qs[e].state.Embryo? {
      assert ExitRel(ps, qs, init, t, e) && MadeBySomeone(ps, e);
      var u :| Valid(ps, u) && Creating(ps[u].pc) && ps[u].pc.np == e;
      assert ExitRel(ps, qs, init, t, u);
      assert Creating(qs[u].pc) && qs[u].pc.np == e;
    }
  }

  lemma StepExit(s: Sys, t: int)
    requires Inv(s) && Enabled(s, DoExit(t))
    ensures Inv(Exit(s, t))
  {
    var ps, qs, n := s.procs, Exit(s, t).procs, s.nextpid;
    ExitIsStep(s, t);
    ExitKeeps(ps, qs, n, s.initproc, t);
    assert ExitRel(ps, qs, s.initproc, t, s.initproc);
  }

  lemma ExitKeeps(ps: seq<Proc>, qs: seq<Proc>, n: nat, init: int, t: int)
    requires Table(ps, n) && ExitStep(ps, qs, init, t)
    ensures Table(qs, n)
  {
    forall l ensures CountOk(qs, l) {
      assert CountOk(ps, l);
      ExitCount(ps, qs, init, t, l);
    }
    forall i ensures SlotOk(qs, n, i) {
      assert SlotOk(ps, n, i) && SlotOk(ps, n, t);
      ExitSlotKeeps(ps, qs, n, init, t, i);
    }
    forall i, j ensures PairOk(qs, i, j) {
      if Valid(ps, i) && Valid(ps, j) {
        assert PairOk(ps, i, j);
        ExitWakes(ps, qs, n, init, t, i, j);
        ExitPairKeeps(ps, qs, init, t, i, j);
      }
    }
    forall e ensures MadeBySomeone(qs, e) {
      ExitMade(ps, qs, n, init, t, e);
    }
  }

  // ---- the end of exec ----------------------------------------------------

  /** Past the barrier the count is one already, so exec.c:68 changes nothing. */
  lemma AloneCount(ps: seq<Proc>, n: nat, t: int)
    requires Table(ps, n) && Valid(ps, t) && Execing(ps[t].pc) && !ps[t].pc.InExec?
    ensures IsLeader(ps, ps[t].process) && ps[ps[t].process].threadcount == 1
  {
    var l := ps[t].process;
    assert SlotOk(ps, n, t) && CountOk(ps, l);
    var none := ps[t := ps[t].(state := Zombie)];
    forall i | 0 <= i < |ps| ensures !LiveIn(none[i], l) {
      assert PairOk(ps, t, i);
    }
    LiveCountZero(none, l);
    LiveCountOne(none, ps, l, t);
  }

  /** Taking the group over changes pids of dead slots and the caller's own. */
  predicate TakeRel(ps: seq<Proc>, qs: seq<Proc>, t: int, i: int)
    requires Valid(ps, t) && |qs| == |ps|
  {
    Valid(ps, i) ==>
      && qs[i] == ps[i].(pid := qs[i].pid, pc := qs[i].pc)
      && (i != t ==> qs[i].pc == ps[i].pc)
      && (i == t ==> qs[i].pc == ExecLoad && qs[i].pid == ps[t].tgid)
      && (i != t && i != ps[t].process ==> qs[i] == ps[i])
      && (qs[i].pid == ps[i].pid || qs[i].pid == ps[t].pid || i == t)
  }

  lemma TakePair(ps: seq<Proc>, qs: seq<Proc>, n: nat, t: int, i: int, j: int)
    requires Valid(ps, t) && |qs| == |ps| && ps[t].pc.ExecAlone? && Live(ps[t])
    requires TakeRel(ps, qs, t, i) && TakeRel(ps, qs, t, j)
    requires Valid(ps, j) ==> TakeRel(ps, qs, t, ps[j].process)
    requires SlotOk(ps, n, t) && SlotOk(ps, n, i) && SlotOk(ps, n, j)
    requires PairOk(ps, i, j) && PairOk(ps, t, i) && PairOk(ps, t, j) && PairOk(ps, i, t)
    ensures PairOk(qs, i, j)
  {
  }

  lemma TakeTable(ps: seq<Proc>, qs: seq<Proc>, n: nat, t: int)
    requires Table(ps, n) && Valid(ps, t) && |qs| == |ps| && ps[t].pc.ExecAlone? && Live(ps[t])
    requires forall i :: TakeRel(ps, qs, t, i)
    ensures Table(qs, n)
  {
    assert SlotOk(ps, n, t);
    forall i ensures SlotOk(qs, n, i) {
      TakeSlot(ps, qs, n, t, i);
    }
    forall i, j ensures PairOk(qs, i, j) {
      assert SlotOk(ps, n, i) && SlotOk(ps, n, j) && TakeRel(ps, qs, t, i) && TakeRel(ps, qs, t, j);
      assert PairOk(ps, i, j) && PairOk(ps, t, i) && PairOk(ps, t, j) && PairOk(ps, i, t);
      if Valid(ps, j) { assert TakeRel(ps, qs, t, ps[j].process); }
      TakePair(ps, qs, n, t, i, j);
    }
    forall e ensures MadeBySomeone(qs, e) {
      assert MadeBySomeone(ps, e) && TakeRel(ps, qs, t, e);
      if Valid(qs, e) && qs[e].state.Embryo? {
        var u :| Valid(ps, u) && Creating(ps[u].pc) && ps[u].pc.np == e;
        assert TakeRel(ps, qs, t, u);
        assert Creating(qs[u].pc) && qs[u].pc.np == e;
      }
    }
    forall m ensures CountOk(qs, m) {
      assert CountOk(ps, m) && TakeRel(ps, qs, t, m);
      forall i | 0 <= i < |ps| ensures LiveIn(ps[i], m) == LiveIn(qs[i], m) {
        assert TakeRel(ps, qs, t, i);
      }
      LiveCountSame(ps, qs, m);
    }
  }

  lemma TakeSlot(ps: seq<Proc>, qs: seq<Proc>, n: nat, t: int, i: int)
    requires Table(ps, n) && Valid(ps, t) && |qs| == |ps| && ps[t].pc.ExecAlone? && Live(ps[t])
    requires forall i :: TakeRel(ps, qs, t, i)
    ensures SlotOk(qs, n, i)
  {
    assert SlotOk(ps, n, i) && SlotOk(ps, n, t) && TakeRel(ps, qs, t, i) && PairOk(ps, t, i);
    if Valid(ps, i) {
      assert TakeRel(ps, qs, t, ps[i].process);
      if Creating(ps[i].pc) { assert TakeRel(ps, qs, t, ps[i].pc.np); }
      if ps[i].pc.InJoin? { assert TakeRel(ps, qs, t, ps[i].pc.target); }
    }
  }

  lemma StepExecTake(s: Sys, t: int)
    requires Inv(s) && Enabled(s, DoExecTake(t))
    ensures Inv(ExecTake(s, t))
  {
    AloneCount(s.procs, s.nextpid, t);
    var qs := ExecTake(s, t).procs;
    assert forall i :: TakeRel(s.procs, qs, t, i);
    TakeTable(s.procs, qs, s.nextpid, t);
  }

  lemma StepExecCommit(s: Sys, t: int, pg: nat)
    requires Inv(s) && Enabled(s, DoExecCommit(t, pg))
    ensures Inv(ExecCommit(s, t, pg))
    ensures ExecCommit(s, t, pg).fault != PanicUndead
  {
    var ps, qs := s.procs, ExecCommit(s, t, pg).procs;
    forall i, j ensures CallsOk(qs, i, j) {
      assert SlotOk(ps, s.nextpid, i) && SlotOk(ps, s.nextpid, j) && PairOk(ps, i, j);
    }
    GentleTable(ps, qs, s.nextpid);
  }

  // ---- every step ---------------------------------------------------------

  predicate Quiet(a: Step) {
    a.DoSchedule? || a.DoYield? || a.DoSleep? || a.DoWakeup? || a.DoKill?
  }

  predicate Makes(a: Step) {
    || a.DoAlloc? || a.DoAllocFail? || a.DoForkFail? || a.DoForkSetup?
    || a.DoCloneGroup? || a.DoCloneParent? || a.DoCloneFinish?
  }

  predicate Execs(a: Step) {
    a.DoExecStart? || a.DoExecCheck? || a.DoExecTake? || a.DoExecFail? || a.DoExecCommit?
  }

  /** The steps of fork and clone. */
  lemma StepMakes(s: Sys, a: Step)
    requires Inv(s) && Enabled(s, a) && Makes(a)
    ensures Inv(Next(s, a)) && Next(s, a).fault == NoFault
  {
    match a
    case DoAlloc(t, c) => StepAlloc(s, t, c);
    case DoAllocFail(t) => StepAllocFail(s, t);
    case DoForkFail(t) => StepForkFail(s, t);
    case DoForkSetup(t, pg) => StepForkSetup(s, t, pg);
    case DoCloneGroup(t) => StepCloneGroup(s, t);
    case DoCloneParent(t) => StepCloneParent(s, t);
    case DoCloneFinish(t) => StepCloneFinish(s, t);
  }

  lemma StepExecs(s: Sys, a: Step)
    requires Inv(s) && Enabled(s, a) && Execs(a)
    ensures Next(s, a).fault != PanicUndead && Inv(Next(s, a))
  {
    match a
    case DoExecStart(t) => StepExecStart(s, t);
    case DoExecCheck(t) => StepExecCheck(s, t);
    case DoExecTake(t) => StepExecTake(s, t);
    case DoExecFail(t) => GotoTable(s, t);
    case DoExecCommit(t, pg) => StepExecCommit(s, t, pg);
  }

  /** Every step keeps the invariant, unless it ends in a fault, which is never
      "undead". */
  lemma StepKeeps(s: Sys, a: Step)
    requires Inv(s) && Enabled(s, a)
    ensures Next(s, a).fault != PanicUndead
    ensures Next(s, a).fault == NoFault ==> Inv(Next(s, a))
  {
    if Quiet(a) {
      StepQuiet(s, a);
    } else if Makes(a) {
      StepMakes(s, a);
    } else if Execs(a) {
      StepExecs(s, a);
    } else {
      match a
      case DoExit(t) => StepExit(s, t);
      case DoWait(t) => StepWait(s, t);
      case DoJoin(t, pid) =>
        var j := JoinTarget(s, t, pid);
        if j != NIL { StepJoin(s, t, j, pid); }
      case DoJoinAgain(t) => StepJoinAgain(s, t);
    }
  }

  lemma StepJoinAgain(s: Sys, t: int)
    requires Inv(s) && Enabled(s, DoJoinAgain(t))
    ensures Inv(JoinOn(s, t, s.procs[t].pc.target, s.procs[t].pc.pid))
  {
    var j := s.procs[t].pc.target;
    assert SlotOk(s.procs, s.nextpid, t);
    forall u | 0 <= u < |s.procs| && u != t && s.procs[u].pc.InJoin? ensures s.procs[u].pc.target != j {
      assert PairOk(s.procs, t, u);
    }
    StepJoin(s, t, j, s.procs[t].pc.pid);
  }
}
