/** The ticket lock of ucthreads.c with its two 32-bit counters, over any number
    of acquisitions, so across any number of counter wraparounds. */
module TicketLock {

  import opened Common

  datatype Pc = Out | Spinning(ticket: nat) | Inside(ticket: nat)

  /** line lists every fetch-and-add so far, entered every entry into the
      critical section, and left counts the releases. */
  datatype Sys = Sys(ticket: nat, turn: nat, pcs: map<Tid, Pc>, line: seq<Tid>, entered: seq<Tid>, left: nat)

  datatype Step = Draw(t: Tid) | Enter(t: Tid) | Release(t: Tid)

  predicate Enabled(y: Sys, a: Step) {
    a.t in y.pcs &&
    match a
    case Draw(t) => y.pcs[t].Out?
    case Enter(t) => y.pcs[t].Spinning? && y.turn == y.pcs[t].ticket
    case Release(t) => y.pcs[t].Inside?
  }

  function Next(y: Sys, a: Step): Sys
    requires Enabled(y, a)
  {
    match a
    case Draw(t) =>
      y.(ticket := (y.ticket + 1) % WORD, pcs := y.pcs[t := Spinning(y.ticket)], line := y.line + [t])
    case Enter(t) => y.(pcs := y.pcs[t := Inside(y.pcs[t].ticket)], entered := y.entered + [t])
    case Release(t) => y.(turn := (y.turn + 1) % WORD, pcs := y.pcs[t := Out], left := y.left + 1)
  }

  function Start(tids: set<Tid>): Sys {
    Sys(0, 0, map t | t in tids :: Out, [], [], 0)
  }

  ghost predicate Run(y: Sys, steps: seq<Step>, y': Sys)
    decreases |steps|
  {
    if steps == [] then y == y' else Enabled(y, steps[0]) && Run(Next(y, steps[0]), steps[1..], y')
  }

  predicate Outstanding(pc: Pc) {
    pc.Spinning? || pc.Inside?
  }

  /** Position i of the line belongs to a thread that has drawn and not left. */
  predicate PlaceOk(y: Sys, i: nat) {
    y.left <= i < |y.line| ==>
      && y.line[i] in y.pcs && Outstanding(y.pcs[y.line[i]]) && y.pcs[y.line[i]].ticket == i % WORD
      && (y.pcs[y.line[i]].Inside? <==> i < |y.entered|)
  }

  ghost predicate ThreadOk(y: Sys, t: Tid) {
    t in y.pcs && Outstanding(y.pcs[t]) ==> exists i :: y.left <= i < |y.line| && y.line[i] == t
  }

  ghost predicate Inv(y: Sys) {
    && |y.pcs| <= WORD
    && y.left <= |y.entered| <= y.left + 1 && |y.entered| <= |y.line|
    && y.ticket == |y.line| % WORD && y.turn == y.left % WORD
    && y.entered == y.line[..|y.entered|]
    && (forall i: nat :: PlaceOk(y, i))
    && (forall i, j :: y.left <= i < j < |y.line| ==> y.line[i] != y.line[j])
    && (forall t :: ThreadOk(y, t))
  }

  /** At most WORD tickets are outstanding, so no two agree modulo WORD. */
  lemma FewOutstanding(y: Sys)
    requires Inv(y)
    ensures |y.line| - y.left <= WORD
  {
    var q := y.line[y.left..];
    forall i | 0 <= i < |q| ensures q[i] in y.pcs.Keys {
      assert PlaceOk(y, y.left + i);
    }
    DistinctInSet(q, y.pcs.Keys);
    assert |y.pcs.Keys| == |y.pcs|;
  }

  lemma ModDistinct(i: nat, j: nat)
    requires i <= j < i + WORD && i % WORD == j % WORD
    ensures i == j
  {
  }

  lemma ModNext(n: nat)
    ensures (n % WORD + 1) % WORD == (n + 1) % WORD
  {
  }

  lemma StepDraw(y: Sys, t: Tid)
    requires Inv(y) && Enabled(y, Draw(t))
    ensures Inv(Next(y, Draw(t)))
  {
    var y' := Next(y, Draw(t));
    ModNext(|y.line|);
    assert y'.line[..|y.entered|] == y.line[..|y.entered|];
    forall i: nat ensures PlaceOk(y', i) { assert PlaceOk(y, i); }
    forall i, j | y'.left <= i < j < |y'.line| ensures y'.line[i] != y'.line[j] {
      assert PlaceOk(y, i);
    }
    forall u ensures ThreadOk(y', u) {
      if u == t {
        assert y'.line[|y.line|] == t;
      } else {
        assert ThreadOk(y, u);
        if u in y.pcs && Outstanding(y.pcs[u]) {
          var i :| y.left <= i < |y.line| && y.line[i] == u;
          assert y'.line[i] == u;
        }
      }
    }
  }

  /** A thread that finds its turn is the oldest one outstanding. */
  lemma TurnIsOldest(y: Sys, t: Tid)
    requires Inv(y) && t in y.pcs && Outstanding(y.pcs[t]) && y.turn == y.pcs[t].ticket
    ensures y.left < |y.line| && y.line[y.left] == t
  {
    assert ThreadOk(y, t);
    var i :| y.left <= i < |y.line| && y.line[i] == t;
    assert PlaceOk(y, i);
    FewOutstanding(y);
    ModDistinct(y.left, i);
  }

  lemma StepEnter(y: Sys, t: Tid)
    requires Inv(y) && Enabled(y, Enter(t))
    ensures Inv(Next(y, Enter(t)))
  {
    var y' := Next(y, Enter(t));
    TurnIsOldest(y, t);
    assert PlaceOk(y, y.left);
    assert y.line[..y.left + 1] == y.line[..y.left] + [t];
    forall i: nat ensures PlaceOk(y', i) { assert PlaceOk(y, i); }
    forall u ensures ThreadOk(y', u) { assert ThreadOk(y, u); }
  }

  /** The thread inside is the oldest one outstanding. */
  lemma InsideIsOldest(y: Sys, t: Tid)
    requires Inv(y) && t in y.pcs && y.pcs[t].Inside?
    ensures y.left < |y.line| && y.line[y.left] == t && |y.entered| == y.left + 1
  {
    assert ThreadOk(y, t);
    var i :| y.left <= i < |y.line| && y.line[i] == t;
    assert PlaceOk(y, i);
  }

  lemma StepRelease(y: Sys, t: Tid)
    requires Inv(y) && Enabled(y, Release(t))
    ensures Inv(Next(y, Release(t)))
  {
    var y' := Next(y, Release(t));
    InsideIsOldest(y, t);
    ModNext(y.left);
    forall i: nat ensures PlaceOk(y', i) { assert PlaceOk(y, i); }
    forall u ensures ThreadOk(y', u) {
      assert ThreadOk(y, u);
      if u != t && u in y.pcs && Outstanding(y.pcs[u]) {
        var i :| y.left <= i < |y.line| && y.line[i] == u;
        assert y'.line[i] == u;
      }
    }
  }

  lemma {:induction false} RunKeeps(y: Sys, steps: seq<Step>, y': Sys)
    requires Inv(y) && Run(y, steps, y')
    ensures Inv(y')
    decreases |steps|
  {
    if steps != [] {
      match steps[0] {
        case Draw(t) => StepDraw(y, t);
        case Enter(t) => StepEnter(y, t);
        case Release(t) => StepRelease(y, t);
      }
      RunKeeps(Next(y, steps[0]), steps[1..], y');
    }
  }

  lemma Reachable(tids: set<Tid>, steps: seq<Step>, y: Sys)
    requires |tids| <= WORD && Run(Start(tids), steps, y)
    ensures Inv(y)
  {
    assert Start(tids).pcs.Keys == tids;
    RunKeeps(Start(tids), steps, y);
  }

  /** Mutual exclusion, and entry in the order of the fetch-and-add. */
  lemma MutualExclusion(tids: set<Tid>, steps: seq<Step>, y: Sys)
    requires |tids| <= WORD && Run(Start(tids), steps, y)
    ensures forall t, u :: t in y.pcs && u in y.pcs && y.pcs[t].Inside? && y.pcs[u].Inside? ==> t == u
    ensures |y.entered| <= |y.line| && y.entered == y.line[..|y.entered|]
  {
    Reachable(tids, steps, y);
    forall t, u | t in y.pcs && u in y.pcs && y.pcs[t].Inside? && y.pcs[u].Inside? ensures t == u {
      InsideIsOldest(y, t);
      InsideIsOldest(y, u);
    }
  }

  /** Outstanding tickets are distinct as 32-bit words. */
  lemma TicketsDistinct(tids: set<Tid>, steps: seq<Step>, y: Sys, t: Tid, u: Tid)
    requires |tids| <= WORD && Run(Start(tids), steps, y) && t in y.pcs && u in y.pcs && t != u
    requires Outstanding(y.pcs[t]) && Outstanding(y.pcs[u])
    ensures y.pcs[t].ticket != y.pcs[u].ticket
  {
    Reachable(tids, steps, y);
    assert ThreadOk(y, t) && ThreadOk(y, u);
    var i :| y.left <= i < |y.line| && y.line[i] == t;
    var j :| y.left <= j < |y.line| && y.line[j] == u;
    assert PlaceOk(y, i) && PlaceOk(y, j);
    FewOutstanding(y);
    if i % WORD == j % WORD {
      if i <= j { ModDistinct(i, j); } else { ModDistinct(j, i); }
    }
  }

  /** The lock is never stuck: when nobody is inside, the thread that drew the
      oldest outstanding ticket can enter. */
  lemma NextInLineCanEnter(tids: set<Tid>, steps: seq<Step>, y: Sys)
    requires |tids| <= WORD && Run(Start(tids), steps, y) && y.left < |y.line|
    requires forall t :: t in y.pcs ==> !y.pcs[t].Inside?
    ensures Enabled(y, Enter(y.line[y.left]))
  {
    Reachable(tids, steps, y);
    assert PlaceOk(y, y.left);
  }

  /** tlock_t in place. */
  class Lock {
    var ticket: nat
    var turn: nat

    ghost predicate Shows(y: Sys)
      reads this
    {
      ticket == y.ticket && turn == y.turn
    }

    constructor ()
      ensures ticket == 0 && turn == 0
    {
      ticket, turn := 0, 0;
    }

    /** xaddl(&lk->ticket, 1). */
    method FetchTicket(ghost y: Sys, t: Tid) returns (mine: nat)
      requires Shows(y) && Enabled(y, Draw(t))
      modifies this`ticket
      ensures Shows(Next(y, Draw(t))) && Next(y, Draw(t)).pcs[t] == Spinning(mine)
    {
      mine := ticket;
      ticket := (ticket + 1) % WORD;
    }

    method Unlock(ghost y: Sys, t: Tid)
      requires Shows(y) && Enabled(y, Release(t))
      modifies this`turn
      ensures Shows(Next(y, Release(t)))
    {
      turn := (turn + 1) % WORD;
    }
  }
}
