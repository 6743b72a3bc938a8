/** Over the runs of the buffer cache: who can get a buffer, and which buffer is
    recycled. */
module BufferUses {
  import opened Common
  import opened BufferList
  import opened BufferCache

  // ---- the sleep locks ----------------------------------------------------

  ghost predicate Held(y: Sys, i: nat) {
    exists u :: Holding(y, u) && y.uses[u].b == i
  }

  ghost predicate LocksHeld(y: Sys) {
    forall i: nat :: i < |y.bufs| && y.bufs[i].locked ==> Held(y, i)
  }

  lemma HeldStep(y: Sys, a: Step, i: nat)
    requires Inv(y) && Enabled(y, a) && LocksHeld(y) && i < |y.bufs| && Next(y, a).bufs[i].locked
    ensures Held(Next(y, a), i)
  {
    var y' := Next(y, a);
    if a.Find? { FindEffect(y, a.dev, a.blockno); }
    if a.Lock? && y.uses[a.u].b == i {
      assert Holding(y', a.u) && y'.uses[a.u].b == i;
    } else {
      assert y.bufs[i].locked;
      var u :| Holding(y, u) && y.uses[u].b == i;
      assert Holding(y', u) && y'.uses[u].b == i;
    }
  }

  lemma {:induction false} HeldRun(y: Sys, steps: seq<Step>, y': Sys)
    requires Inv(y) && LocksHeld(y) && Run(y, steps, y')
    ensures LocksHeld(y')
    decreases |steps|
  {
    if steps != [] {
      forall i: nat | i < |y.bufs| && Next(y, steps[0]).bufs[i].locked ensures Held(Next(y, steps[0]), i) {
        HeldStep(y, steps[0], i);
      }
      StepKeeps(y, steps[0]);
      HeldRun(Next(y, steps[0]), steps[1..], y');
    }
  }

  /** After any run a buffer is locked if and only if some use holds it; so a use that
      waits for a buffer that nobody holds gets it. */
  lemma LockedExactly(start: Sys, steps: seq<Step>, y: Sys, i: nat)
    requires Start(start) && Run(start, steps, y) && i < NBUF
    ensures Shaped(y) && (y.bufs[i].locked <==> Held(y, i))
    ensures forall u :: At(y, u, Wants) && y.uses[u].b == i && !Held(y, i) ==> Enabled(y, Lock(u))
  {
    StartInv(start);
    RunKeeps(start, steps, y);
    HeldRun(start, steps, y);
    if Held(y, i) {
      var u :| Holding(y, u) && y.uses[u].b == i;
      assert UseOk(y, u);
    }
  }

  /** bget panics exactly when no buffer is for the block and every buffer is dirty or
      has users. */
  lemma GetPanicsExactly(start: Sys, steps: seq<Step>, y: Sys, u: nat, dev: nat, blockno: nat)
    requires Start(start) && Run(start, steps, y) && u !in y.uses
    ensures Shaped(y)
    ensures Enabled(y, Find(u, dev, blockno)) <==>
      exists i :: 0 <= i < NBUF && (For(y.bufs[i], dev, blockno) || (!y.bufs[i].dirty && Refs(y.uses, i) == {}))
  {
    StartInv(start);
    RunKeeps(start, steps, y);
    forall i: nat | i < NBUF ensures Reusable(y.bufs[i]) <==> !y.bufs[i].dirty && Refs(y.uses, i) == {} {
      assert RefOk(y, i);
    }
    if Enabled(y, Find(u, dev, blockno)) {
      FindEffect(y, dev, blockno);
    }
    if i: nat :| i < NBUF && (For(y.bufs[i], dev, blockno) || Reusable(y.bufs[i])) {
      var k := IndexIn(y.order, i);
    }
  }

  /** What a client that has returned from bread can do with its buffer: what it
      writes becomes the contents of the block; marked, the buffer cannot be recycled
      and the disk stays as it is; and bwrite puts just this block on the disk and
      leaves the buffer clean. */
  lemma ClientSteps(start: Sys, steps: seq<Step>, y: Sys, u: nat, data: Block)
    requires Start(start) && Run(start, steps, y) && IsReady(y, u)
    ensures Shaped(y) && Enabled(y, Change(u, data)) && Enabled(y, Mark(u)) && Enabled(y, Write(u))
    ensures var i, n, y' := y.uses[u].b, y.uses[u].blockno, Next(y, Change(u, data));
      n < |y.installed| && y'.installed == y.installed[n := data] && y'.bufs[i].data == data && y'.disk == y.disk
    ensures var i, y' := y.uses[u].b, Next(y, Mark(u));
      y'.bufs[i].dirty && !Reusable(y'.bufs[i]) && y'.disk == y.disk && y'.installed == y.installed
    ensures var i, n, y' := y.uses[u].b, y.uses[u].blockno, Next(y, Write(u));
      && n < |y.disk| == |y.installed| && y'.disk == y.disk[n := y.installed[n]] && !y'.bufs[i].dirty
      && y'.installed == y.installed && y'.bufs[i].data == y.installed[n]
  {
    ClientsGoOn(start, steps, y, u, data);
    BreadReturnsLast(start, steps, y, u);
  }

  // ---- least recently used ------------------------------------------------

  /** brelse: one reference less; with the last one the buffer goes to the front and
      the others keep their order. */
  lemma PutIs(order: seq<nat>, bufs: seq<Buf>, b: nat)
    requires Order(order) && b < |bufs| == NBUF && bufs[b].refcnt > 0
    ensures var (o, bs) := Put(order, bufs, b);
      && bs == bufs[b := bufs[b].(refcnt := bufs[b].refcnt - 1)]
      && if bufs[b].refcnt > 1 then o == order
         else exists k :: 0 <= k < |order| && order[k] == b && o == [b] + (order[..k] + order[k + 1..])
  {
    var k := IndexIn(order, b);
    assert Without(order, k) == order[..k] + order[k + 1..];
  }

  /** The buffers whose last reference was given back, one after the other. */
  ghost function Released(y: Sys, steps: seq<Step>): seq<nat>
    decreases |steps|
  {
    if steps == [] || !Shaped(y) || !Enabled(y, steps[0]) then []
    else LastRelease(y, steps[0]) + Released(Next(y, steps[0]), steps[1..])
  }

  ghost function LastRelease(y: Sys, a: Step): seq<nat>
    requires Shaped(y) && Enabled(y, a)
  {
    if a.Drop? && Refs(y.uses, y.uses[a.u].b) == {a.u} then [y.uses[a.u].b] else []
  }

  /** When b was released last, counting from 1, or 0. */
  function LastTime(released: seq<nat>, b: nat): nat {
    if released == [] then 0
    else if released[|released| - 1] == b then |released|
    else LastTime(released[..|released| - 1], b)
  }

  /** The list is in order of release, the latest first. */
  ghost predicate ByRelease(order: seq<nat>, released: seq<nat>) {
    forall i, j :: 0 <= i < j < |order| ==> Later(released, order[i], order[j])
  }

  /** b was released after c, or neither was. */
  predicate Later(released: seq<nat>, b: nat, c: nat) {
    LastTime(released, c) < LastTime(released, b) || LastTime(released, c) == LastTime(released, b) == 0
  }

  lemma LastTimeBound(released: seq<nat>, b: nat)
    ensures LastTime(released, b) <= |released|
  {
  }

  lemma ReleaseStep(order: seq<nat>, released: seq<nat>, k: nat, b: nat)
    requires Order(order) && ByRelease(order, released) && k < |order| && order[k] == b
    ensures ByRelease([b] + (order[..k] + order[k + 1..]), released + [b])
  {
    var o, r := [b] + (order[..k] + order[k + 1..]), released + [b];
    assert r[..|released|] == released;
    forall i, j | 0 <= i < j < |o| ensures Later(r, o[i], o[j]) {
      var q := if j - 1 < k then j - 1 else j;
      assert o[j] == order[q] && order[q] != b;
      LastTimeBound(released, order[q]);
      if i > 0 {
        var p := if i - 1 < k then i - 1 else i;
        assert o[i] == order[p] && order[p] != b && Later(released, order[p], order[q]);
      }
    }
  }

  lemma ReleaseNext(y: Sys, a: Step, released: seq<nat>)
    requires Inv(y) && Enabled(y, a) && ByRelease(y.order, released)
    ensures ByRelease(Next(y, a).order, released + LastRelease(y, a))
  {
    assert released + [] == released;
    if a.Drop? {
      var b := y.uses[a.u].b;
      assert RefOk(y, b) && a.u in Refs(y.uses, b);
      PutIs(y.order, y.bufs, b);
      OnlyOne(Refs(y.uses, b), a.u);
      if y.bufs[b].refcnt == 1 {
        var k :| 0 <= k < |y.order| && y.order[k] == b && Next(y, a).order == [b] + (y.order[..k] + y.order[k + 1..]);
        ReleaseStep(y.order, released, k, b);
      }
    }
  }

  lemma OnlyOne(s: set<nat>, u: nat)
    requires u in s
    ensures |s| == 1 <==> s == {u}
  {
    assert |s - {u}| == |s| - 1;
    if |s| == 1 { assert s - {u} == {}; }
  }

  lemma {:induction false} ReleaseRun(y: Sys, steps: seq<Step>, y': Sys, released: seq<nat>)
    requires Inv(y) && Run(y, steps, y') && ByRelease(y.order, released)
    ensures ByRelease(y'.order, released + Released(y, steps))
    decreases |steps|
  {
    if steps == [] {
      assert released + [] == released;
    } else {
      var more := LastRelease(y, steps[0]);
      ReleaseNext(y, steps[0], released);
      StepKeeps(y, steps[0]);
      ReleaseRun(Next(y, steps[0]), steps[1..], y', released + more);
      Regroup(released, more, Released(Next(y, steps[0]), steps[1..]));
    }
  }

  lemma Regroup(a: seq<nat>, b: seq<nat>, c: seq<nat>)
    ensures a + b + c == a + (b + c)
  {
  }

  /** Of the buffers that may be recycled the last one in the list was released the
      longest time ago. */
  lemma LastIsOldest(order: seq<nat>, bufs: seq<Buf>, released: seq<nat>, i: nat)
    requires Order(order) && |bufs| == NBUF && ByRelease(order, released) && i < NBUF && Reusable(bufs[i])
    ensures var v := Victim(order, bufs, |order|);
      v >= 0 && Reusable(bufs[order[v]]) && LastTime(released, order[v]) <= LastTime(released, i)
  {
    var k, v := IndexIn(order, i), Victim(order, bufs, |order|);
    if k < v { assert Later(released, order[k], order[v]); }
  }

  /** The buffer that bget recycles is, of those it could recycle, the one whose last
      user gave it back the longest time ago, or one that never had a user. */
  lemma LeastRecentlyUsed(start: Sys, steps: seq<Step>, y: Sys, u: nat, dev: nat, blockno: nat, i: nat)
    requires Start(start) && Run(start, steps, y) && u !in y.uses && Shaped(y) && Enabled(y, Find(u, dev, blockno))
    requires forall j :: 0 <= j < NBUF ==> !For(y.bufs[j], dev, blockno)
    requires i < NBUF && !y.bufs[i].dirty && Refs(y.uses, i) == {}
    ensures var b := Next(y, Find(u, dev, blockno)).uses[u].b;
      && b < NBUF && !y.bufs[b].dirty && Refs(y.uses, b) == {}
      && LastTime(Released(start, steps), b) <= LastTime(Released(start, steps), i)
  {
    assert Inv(y) && ByRelease(y.order, Released(start, steps)) by {
      StartInv(start);
      RunKeeps(start, steps, y);
      ReleaseRun(start, steps, y, []);
      assert [] + Released(start, steps) == Released(start, steps);
    }
    Recycles(y, u, dev, blockno, i, Released(start, steps));
  }

  lemma Recycles(y: Sys, u: nat, dev: nat, blockno: nat, i: nat, released: seq<nat>)
    requires Inv(y) && ByRelease(y.order, released) && Enabled(y, Find(u, dev, blockno))
    requires forall j :: 0 <= j < NBUF ==> !For(y.bufs[j], dev, blockno)
    requires i < NBUF && !y.bufs[i].dirty && Refs(y.uses, i) == {}
    ensures var b := Next(y, Find(u, dev, blockno)).uses[u].b;
      b < NBUF && !y.bufs[b].dirty && Refs(y.uses, b) == {} && LastTime(released, b) <= LastTime(released, i)
  {
    assert RefOk(y, i);
    LastIsOldest(y.order, y.bufs, released, i);
    assert RefOk(y, y.order[Victim(y.order, y.bufs, |y.order|)]);
  }
}
