/** The buffer cache under any interleaving of clients.  A use is one call of
    bread up to its brelse: it finds or recycles a buffer, waits for its sleep
    lock, reads the block if need be, may change and mark or write it, unlocks
    it and gives it back.  A panic ends the run. */
module BufferCache {

  import opened Common
  import opened BufferList

  datatype Stage = Wants | Locked | Ready(changed: bool) | Leaves

  datatype Use = Use(b: nat, blockno: nat, dev: nat, stage: Stage)

  /** owner is who holds each sleep lock; installed is the plain array of blocks
      that the cache stands for: the last contents that a client gave each block
      of ROOTDEV. */
  datatype Sys = Sys(bufs: seq<Buf>, order: seq<nat>, disk: seq<Block>, uses: map<nat, Use>,
                     owner: map<nat, nat>, installed: seq<Block>)

  datatype Step =
    | Find(u: nat, dev: nat, blockno: nat)   // bget
    | Lock(u: nat)                           // acquiresleep
    | Fill(u: nat)                           // bread's iderw
    | Change(u: nat, data: Block)            // the client writes b->data
    | Mark(u: nat)                           // log_write sets B_DIRTY
    | Write(u: nat)                          // bwrite
    | Unlock(u: nat)                         // releasesleep
    | Drop(u: nat)                           // brelse under bcache.lock

  predicate At(y: Sys, u: nat, stage: Stage) {
    u in y.uses && y.uses[u].stage == stage
  }

  predicate IsReady(y: Sys, u: nat) {
    u in y.uses && y.uses[u].stage.Ready?
  }

  predicate InRange(y: Sys, b: Buf) {
    b.dev == ROOTDEV && b.blockno < |y.disk|
  }

  /** holdingsleep, which bwrite, iderw and brelse panic without. */
  predicate HoldsSleep(y: Sys, u: nat)
    requires u in y.uses && y.uses[u].b < |y.bufs|
  {
    y.bufs[y.uses[u].b].locked && y.uses[u].b in y.owner && y.owner[y.uses[u].b] == u
  }

  predicate Shaped(y: Sys) {
    && |y.bufs| == NBUF && |y.installed| == |y.disk| && Indexes(y.order, y.bufs)
    && (forall u :: u in y.uses ==> y.uses[u].b < NBUF)
  }

  /** A client unlocks only what it has not changed since it last marked or
      wrote it. */
  predicate Enabled(y: Sys, a: Step)
    requires Shaped(y)
  {
    match a
    case Find(u, dev, blockno) => u !in y.uses && Get(y.order, y.bufs, dev, blockno).0 != -1
    case Lock(u) => At(y, u, Wants) && !y.bufs[y.uses[u].b].locked
    case Fill(u) =>
      At(y, u, Locked) && (y.bufs[y.uses[u].b].valid || (HoldsSleep(y, u) && InRange(y, y.bufs[y.uses[u].b])))
    case Change(u, _) => IsReady(y, u) && InRange(y, y.bufs[y.uses[u].b])
    case Mark(u) => IsReady(y, u)
    case Write(u) => IsReady(y, u) && HoldsSleep(y, u) && InRange(y, y.bufs[y.uses[u].b])
    case Unlock(u) => At(y, u, Ready(false)) && HoldsSleep(y, u)
    case Drop(u) => At(y, u, Leaves) && y.uses[u].b in y.order && y.bufs[y.uses[u].b].refcnt > 0
  }

  /** iderw of buffer i, as memide.c has it. */
  function SyncBuf(y: Sys, i: nat): (y': Sys)
    requires Shaped(y) && i < NBUF && InRange(y, y.bufs[i])
    ensures Shaped(y')
  {
    var b := y.bufs[i];
    if b.dirty then
      y.(disk := y.disk[b.blockno := b.data], bufs := y.bufs[i := b.(dirty := false, valid := true)])
    else
      y.(bufs := y.bufs[i := b.(data := y.disk[b.blockno], valid := true)])
  }

  function SetStage(y: Sys, u: nat, stage: Stage): Sys
    requires u in y.uses
  {
    y.(uses := y.uses[u := y.uses[u].(stage := stage)])
  }

  function SetBuf(y: Sys, i: nat, b: Buf): Sys
    requires i < |y.bufs|
  {
    y.(bufs := y.bufs[i := b])
  }

  function Next(y: Sys, a: Step): (y': Sys)
    requires Shaped(y) && Enabled(y, a)
    ensures Shaped(y')
  {
    match a
    case Find(u, dev, blockno) =>
      var (i, bufs) := Get(y.order, y.bufs, dev, blockno);
      y.(bufs := bufs, uses := y.uses[u := Use(i, blockno, dev, Wants)])
    case Lock(u) =>
      var i := y.uses[u].b;
      SetStage(SetBuf(y, i, y.bufs[i].(locked := true)), u, Locked).(owner := y.owner[i := u])
    case Fill(u) => SetStage(if y.bufs[y.uses[u].b].valid then y else SyncBuf(y, y.uses[u].b), u, Ready(false))
    case Change(u, data) =>
      var i := y.uses[u].b;
      SetStage(SetBuf(y, i, y.bufs[i].(data := data)), u, Ready(true))
        .(installed := y.installed[y.bufs[i].blockno := data])
    case Mark(u) => SetStage(SetBuf(y, y.uses[u].b, y.bufs[y.uses[u].b].(dirty := true)), u, Ready(false))
    case Write(u) =>
      SetStage(SyncBuf(SetBuf(y, y.uses[u].b, y.bufs[y.uses[u].b].(dirty := true)), y.uses[u].b), u, Ready(false))
    case Unlock(u) =>
      var i := y.uses[u].b;
      SetStage(SetBuf(y, i, y.bufs[i].(locked := false)), u, Leaves).(owner := y.owner - {i})
    case Drop(u) =>
      var (order, bufs) := Put(y.order, y.bufs, y.uses[u].b);
      y.(order := order, bufs := bufs, uses := y.uses - {u})
  }

  // ---- the invariant ------------------------------------------------------

  predicate Holding(y: Sys, u: nat) {
    u in y.uses && (y.uses[u].stage == Locked || y.uses[u].stage.Ready?)
  }

  /** A buffer stays with the block it was found for as long as it is in use. */
  predicate UseOk(y: Sys, u: nat)
    requires Shaped(y)
  {
    u in y.uses ==>
      && For(y.bufs[y.uses[u].b], y.uses[u].dev, y.uses[u].blockno)
      && (Holding(y, u) ==> HoldsSleep(y, u))
      && (IsReady(y, u) ==> y.bufs[y.uses[u].b].valid)
  }

  /** The sleep lock excludes. */
  predicate LockOk(y: Sys, u: nat, v: nat) {
    Holding(y, u) && Holding(y, v) && y.uses[u].b == y.uses[v].b ==> u == v
  }

  ghost function Refs(uses: map<nat, Use>, i: nat): set<nat> {
    set u | u in uses && uses[u].b == i
  }

  ghost predicate RefOk(y: Sys, i: nat) {
    i < |y.bufs| ==> y.bufs[i].refcnt == |Refs(y.uses, i)|
  }

  predicate PairOk(y: Sys, i: nat, j: nat) {
    i < j < |y.bufs| && y.bufs[i].dev == ROOTDEV && y.bufs[j].dev == ROOTDEV ==> y.bufs[i].blockno != y.bufs[j].blockno
  }

  ghost predicate Changed(y: Sys, i: nat) {
    exists u :: At(y, u, Ready(true)) && y.uses[u].b == i
  }

  /** A valid buffer has the block's last contents; so has the disk, unless the
      buffer is dirty or being changed. */
  ghost predicate BufOk(y: Sys, i: nat)
    requires Shaped(y)
  {
    i < NBUF ==>
      && (y.bufs[i].valid ==> InRange(y, y.bufs[i]) && y.bufs[i].data == y.installed[y.bufs[i].blockno])
      && (y.bufs[i].dirty ==> y.bufs[i].valid)
      && (InRange(y, y.bufs[i]) && !y.bufs[i].dirty && !Changed(y, i) ==> Synced(y, y.bufs[i].blockno))
  }

  predicate Synced(y: Sys, n: nat)
    requires |y.installed| == |y.disk|
  {
    n < |y.disk| ==> y.disk[n] == y.installed[n]
  }

  ghost predicate InCache(y: Sys, n: nat) {
    exists i :: 0 <= i < |y.bufs| && For(y.bufs[i], ROOTDEV, n)
  }

  ghost predicate RestOk(y: Sys, n: nat)
    requires |y.installed| == |y.disk|
  {
    !InCache(y, n) ==> Synced(y, n)
  }

  ghost predicate Inv(y: Sys) {
    && Shaped(y) && Order(y.order)
    && (forall u: nat :: UseOk(y, u)) && (forall u: nat, v: nat :: LockOk(y, u, v))
    && (forall i: nat :: RefOk(y, i)) && (forall i: nat, j: nat :: PairOk(y, i, j))
    && (forall i: nat :: BufOk(y, i)) && (forall n: nat :: RestOk(y, n))
  }

  // ---- what each step keeps -----------------------------------------------

  lemma StepOrder(y: Sys, a: Step)
    requires Inv(y) && Enabled(y, a)
    ensures Order(Next(y, a).order)
  {
    if a.Drop? {
      PutOrder(y.order, y.uses[a.u].b);
    }
  }

  /** What bget does with buffer i: take another reference to the block's buffer,
      or recycle a free and clean one when no buffer is for the block. */
  ghost predicate Found(bufs: seq<Buf>, i: nat, dev: nat, blockno: nat, b: Buf) {
    i < |bufs| && For(bufs[i], dev, blockno) && b == bufs[i].(refcnt := bufs[i].refcnt + 1)
  }

  ghost predicate Recycled(bufs: seq<Buf>, i: nat, dev: nat, blockno: nat, b: Buf) {
    && i < |bufs| && Reusable(bufs[i]) && b == Buf(dev, blockno, false, false, bufs[i].locked, 1, bufs[i].data)
    && forall j :: 0 <= j < |bufs| ==> !For(bufs[j], dev, blockno)
  }

  lemma FindEffect(y: Sys, dev: nat, blockno: nat)
    requires Inv(y) && Get(y.order, y.bufs, dev, blockno).0 != -1
    ensures var (i, bufs) := Get(y.order, y.bufs, dev, blockno);
      && 0 <= i && bufs == y.bufs[i := bufs[i]]
      && (Found(y.bufs, i, dev, blockno, bufs[i]) || Recycled(y.bufs, i, dev, blockno, bufs[i]))
  {
    if Cached(y.order, y.bufs, dev, blockno, 0) == -1 {
      forall j: nat | j < |y.bufs| ensures !For(y.bufs[j], dev, blockno) {
        var k := IndexIn(y.order, j);
      }
    }
  }

  lemma NoRefs(y: Sys, i: nat, u: nat)
    requires Inv(y) && u in y.uses && y.uses[u].b == i
    ensures y.bufs[i].refcnt > 0
  {
    assert RefOk(y, i);
    assert u in Refs(y.uses, i);
  }

  lemma StepUse(y: Sys, a: Step, v: nat)
    requires Inv(y) && Enabled(y, a)
    ensures UseOk(Next(y, a), v)
  {
    assert UseOk(y, v);
    if a.Find? {
      FindEffect(y, a.dev, a.blockno);
      if v in y.uses {
        NoRefs(y, y.uses[v].b, v);
      }
    } else {
      assert UseOk(y, a.u) && LockOk(y, a.u, v);
      KeepUse(y, a, v);
    }
  }

  lemma KeepUse(y: Sys, a: Step, v: nat)
    requires Shaped(y) && Enabled(y, a) && !a.Find? && UseOk(y, v) && UseOk(y, a.u) && LockOk(y, a.u, v)
    ensures UseOk(Next(y, a), v)
  {
  }

  lemma StepLock(y: Sys, a: Step, v: nat, w: nat)
    requires Inv(y) && Enabled(y, a)
    ensures LockOk(Next(y, a), v, w)
  {
    assert LockOk(y, v, w) && UseOk(y, v) && UseOk(y, w);
  }

  lemma StepRef(y: Sys, a: Step, i: nat)
    requires Inv(y) && Enabled(y, a)
    ensures RefOk(Next(y, a), i)
  {
    assert RefOk(y, i);
    if a.Find? {
      FindEffect(y, a.dev, a.blockno);
      RefAdded(y.uses, a.u, Next(y, a).uses[a.u], i);
    } else if a.Drop? {
      DropRef(y, a.u, i);
    } else {
      KeepRef(y, a, i);
    }
  }

  lemma DropRef(y: Sys, u: nat, i: nat)
    requires Shaped(y) && Enabled(y, Drop(u)) && RefOk(y, i)
    ensures RefOk(Next(y, Drop(u)), i)
  {
    assert Refs(Next(y, Drop(u)).uses, i) == Refs(y.uses, i) - {u};
  }

  lemma KeepRef(y: Sys, a: Step, i: nat)
    requires Shaped(y) && Enabled(y, a) && !a.Find? && !a.Drop? && RefOk(y, i)
    ensures RefOk(Next(y, a), i)
  {
    RefsSame(y.uses, Next(y, a).uses, i);
  }

  lemma RefsSame(uses: map<nat, Use>, uses': map<nat, Use>, i: nat)
    requires forall v :: (v in uses <==> v in uses') && (v in uses ==> uses'[v].b == uses[v].b)
    ensures Refs(uses', i) == Refs(uses, i)
  {
  }

  lemma RefAdded(uses: map<nat, Use>, u: nat, use: Use, i: nat)
    requires u !in uses
    ensures |Refs(uses[u := use], i)| == |Refs(uses, i)| + if use.b == i then 1 else 0
  {
    if use.b == i {
      assert Refs(uses[u := use], i) == Refs(uses, i) + {u};
    } else {
      assert Refs(uses[u := use], i) == Refs(uses, i);
    }
  }

  lemma StepPair(y: Sys, a: Step, i: nat, j: nat)
    requires Inv(y) && Enabled(y, a)
    ensures PairOk(Next(y, a), i, j)
  {
    assert PairOk(y, i, j);
    if a.Find? {
      FindEffect(y, a.dev, a.blockno);
    }
  }

  /** A use that was not changing its buffer and is not either after the step
      makes no difference to which buffers are being changed. */
  lemma ChangedKept(y: Sys, y': Sys, u: nat, i: nat)
    requires forall v :: v != u ==> (v in y.uses <==> v in y'.uses) && (v in y.uses ==> y'.uses[v] == y.uses[v])
    requires (At(y, u, Ready(true)) ==> y.uses[u].b != i) && (At(y', u, Ready(true)) ==> y'.uses[u].b != i)
    ensures Changed(y, i) <==> Changed(y', i)
  {
    if v :| At(y, v, Ready(true)) && y.uses[v].b == i {
      assert At(y', v, Ready(true)) && y'.uses[v].b == i;
    }
    if v :| At(y', v, Ready(true)) && y'.uses[v].b == i {
      assert At(y, v, Ready(true)) && y.uses[v].b == i;
    }
  }

  /** Two buffers are never for the same block of ROOTDEV. */
  lemma Apart(y: Sys, i: nat, j: nat)
    requires Inv(y) && i < NBUF && j < NBUF && i != j && InRange(y, y.bufs[i]) && InRange(y, y.bufs[j])
    ensures y.bufs[i].blockno != y.bufs[j].blockno
  {
    assert PairOk(y, i, j) && PairOk(y, j, i);
  }

  lemma FindBuf(y: Sys, a: Step, i: nat)
    requires Inv(y) && Enabled(y, a) && a.Find?
    ensures BufOk(Next(y, a), i)
  {
    assert BufOk(y, i) && RestOk(y, a.blockno);
    FindEffect(y, a.dev, a.blockno);
    ChangedKept(y, Next(y, a), a.u, i);
  }

  /** The steps on a buffer, seen from another one. */
  lemma OtherBuf(y: Sys, a: Step, i: nat)
    requires Inv(y) && Enabled(y, a) && !a.Find? && y.uses[a.u].b != i
    ensures BufOk(Next(y, a), i)
  {
    assert BufOk(y, i) && BufOk(y, y.uses[a.u].b);
    ChangedKept(y, Next(y, a), a.u, i);
    if i < NBUF && InRange(y, y.bufs[i]) && InRange(y, y.bufs[y.uses[a.u].b]) {
      Apart(y, i, y.uses[a.u].b);
    }
  }

  /** The steps on a buffer itself. */
  lemma OwnBuf(y: Sys, a: Step)
    requires Inv(y) && Enabled(y, a) && !a.Find?
    ensures BufOk(Next(y, a), y.uses[a.u].b)
  {
    var i := y.uses[a.u].b;
    assert BufOk(y, i) && UseOk(y, a.u);
    match a
    case Change(u, _) =>
      assert At(Next(y, a), u, Ready(true));
    case Fill(u) =>
      if !y.bufs[i].valid {
        forall v ensures !(At(y, v, Ready(true)) && y.uses[v].b == i) {
          assert UseOk(y, v);
        }
        assert !Changed(y, i);
      }
      ChangedKept(y, Next(y, a), u, i);
    case Lock(u) =>
      ChangedKept(y, Next(y, a), u, i);
    case Unlock(u) =>
      ChangedKept(y, Next(y, a), u, i);
    case Drop(u) =>
      ChangedKept(y, Next(y, a), u, i);
    case _ =>
  }

  lemma StepBuf(y: Sys, a: Step, i: nat)
    requires Inv(y) && Enabled(y, a)
    ensures BufOk(Next(y, a), i)
  {
    if a.Find? {
      FindBuf(y, a, i);
    } else if y.uses[a.u].b == i {
      OwnBuf(y, a);
    } else {
      OtherBuf(y, a, i);
    }
  }

  lemma StepRest(y: Sys, a: Step, n: nat)
    requires Inv(y) && Enabled(y, a)
    ensures RestOk(Next(y, a), n)
  {
    var y' := Next(y, a);
    assert RestOk(y, n);
    if !InCache(y', n) {
      if a.Find? {
        FindEffect(y, a.dev, a.blockno);
        FindRest(y, a, n);
      } else {
        SameCache(y, y', y.uses[a.u].b, n);
        assert BufOk(y, y.uses[a.u].b) && !For(y.bufs[y.uses[a.u].b], ROOTDEV, n);
      }
    }
  }

  lemma SameCache(y: Sys, y': Sys, i: nat, n: nat)
    requires |y.bufs| == |y'.bufs| && i < |y.bufs| && y'.bufs == y.bufs[i := y'.bufs[i]]
    requires y'.bufs[i].dev == y.bufs[i].dev && y'.bufs[i].blockno == y.bufs[i].blockno
    ensures InCache(y, n) <==> InCache(y', n)
  {
    if j :| 0 <= j < |y.bufs| && For(y.bufs[j], ROOTDEV, n) {
      assert For(y'.bufs[j], ROOTDEV, n);
    }
    if j :| 0 <= j < |y'.bufs| && For(y'.bufs[j], ROOTDEV, n) {
      assert For(y.bufs[j], ROOTDEV, n);
    }
  }

  /** A block that loses its buffer was in step with the disk. */
  lemma FindRest(y: Sys, a: Step, n: nat)
    requires Inv(y) && Enabled(y, a) && a.Find? && !InCache(Next(y, a), n)
    ensures Synced(y, n)
  {
    var y' := Next(y, a);
    FindEffect(y, a.dev, a.blockno);
    var i := y'.uses[a.u].b;
    assert RestOk(y, n);
    if InCache(y, n) {
      var j :| 0 <= j < |y.bufs| && For(y.bufs[j], ROOTDEV, n);
      assert !For(y'.bufs[j], ROOTDEV, n);
      assert j == i && Recycled(y.bufs, i, a.dev, a.blockno, y'.bufs[i]);
      assert BufOk(y, i);
      forall v ensures !(At(y, v, Ready(true)) && y.uses[v].b == i) {
        if v in y.uses && y.uses[v].b == i {
          NoRefs(y, i, v);
        }
      }
      assert !Changed(y, i);
    }
  }

  /** Every step keeps the invariant. */
  lemma StepKeeps(y: Sys, a: Step)
    requires Inv(y) && Enabled(y, a)
    ensures Inv(Next(y, a))
  {
    var y' := Next(y, a);
    StepOrder(y, a);
    forall u: nat ensures UseOk(y', u) { StepUse(y, a, u); }
    forall u: nat, v: nat ensures LockOk(y', u, v) { StepLock(y, a, u, v); }
    forall i: nat ensures RefOk(y', i) { StepRef(y, a, i); }
    forall i: nat, j: nat ensures PairOk(y', i, j) { StepPair(y, a, i, j); }
    forall i: nat ensures BufOk(y', i) { StepBuf(y, a, i); }
    forall n: nat ensures RestOk(y', n) { StepRest(y, a, n); }
  }

  // ---- runs ---------------------------------------------------------------

  /** After binit, over a disk with any contents. */
  ghost predicate Start(y: Sys) {
    && |y.bufs| == NBUF && (forall i :: 0 <= i < NBUF ==> y.bufs[i] == Buf(0, 0, false, false, false, 0, []))
    && Order(y.order) && y.uses == map[] && y.owner == map[] && y.installed == y.disk
  }

  lemma StartInv(y: Sys)
    requires Start(y)
    ensures Inv(y)
  {
    forall i: nat ensures RefOk(y, i) {
      assert Refs(y.uses, i) == {};
    }
  }

  ghost predicate Run(y: Sys, steps: seq<Step>, y': Sys)
    decreases |steps|
  {
    Shaped(y) && if steps == [] then y == y' else Enabled(y, steps[0]) && Run(Next(y, steps[0]), steps[1..], y')
  }

  lemma {:induction false} RunKeeps(y: Sys, steps: seq<Step>, y': Sys)
    requires Inv(y) && Run(y, steps, y')
    ensures Inv(y')
    decreases |steps|
  {
    if steps != [] {
      StepKeeps(y, steps[0]);
      RunKeeps(Next(y, steps[0]), steps[1..], y');
    }
  }

  /** bread refines a plain array of blocks: after any run, whoever has returned
      from bread of a block and not yet released it has a valid buffer with the
      last contents installed in the block, and is alone with it; and the list
      still holds every buffer once. */
  lemma BreadReturnsLast(start: Sys, steps: seq<Step>, y: Sys, u: nat)
    requires Start(start) && Run(start, steps, y) && IsReady(y, u)
    ensures Shaped(y) && Order(y.order)
    ensures var b := y.bufs[y.uses[u].b];
      && For(b, y.uses[u].dev, y.uses[u].blockno) && InRange(y, b)
      && b.valid && b.data == y.installed[y.uses[u].blockno]
      && forall v :: Holding(y, v) && y.uses[v].dev == ROOTDEV && y.uses[v].blockno == y.uses[u].blockno ==> v == u
  {
    StartInv(start);
    RunKeeps(start, steps, y);
    assert UseOk(y, u) && BufOk(y, y.uses[u].b);
    forall v | Holding(y, v) && y.uses[v].dev == ROOTDEV && y.uses[v].blockno == y.uses[u].blockno ensures v == u {
      assert UseOk(y, v) && LockOk(y, u, v);
      assert PairOk(y, y.uses[u].b, y.uses[v].b) && PairOk(y, y.uses[v].b, y.uses[u].b);
    }
  }

  /** Each block of ROOTDEV has at most one buffer, and the reference counts are
      the numbers of uses. */
  lemma OneBufferPerBlock(start: Sys, steps: seq<Step>, y: Sys, i: nat, j: nat)
    requires Start(start) && Run(start, steps, y) && i < j < NBUF
    ensures |y.bufs| == NBUF && y.bufs[i].refcnt == |Refs(y.uses, i)|
    ensures y.bufs[i].dev == ROOTDEV && y.bufs[j].dev == ROOTDEV ==> y.bufs[i].blockno != y.bufs[j].blockno
  {
    StartInv(start);
    RunKeeps(start, steps, y);
    assert PairOk(y, i, j) && RefOk(y, i);
  }

  /** A buffer in use or dirty is not recycled: it keeps its block, and what the
      client or the log put there. */
  lemma NotRecycled(y: Sys, a: Step, i: nat)
    requires Inv(y) && Enabled(y, a) && i < NBUF && !Reusable(y.bufs[i])
    ensures For(Next(y, a).bufs[i], y.bufs[i].dev, y.bufs[i].blockno)
    ensures y.bufs[i].valid ==> Next(y, a).bufs[i].valid
  {
    if a.Find? {
      FindEffect(y, a.dev, a.blockno);
    }
  }

  /** Once nothing is dirty or being changed, the disk is the plain array. */
  lemma DiskCatchesUp(start: Sys, steps: seq<Step>, y: Sys)
    requires Start(start) && Run(start, steps, y)
    requires forall i :: 0 <= i < |y.bufs| ==> !y.bufs[i].dirty
    requires forall u :: !At(y, u, Ready(true))
    ensures y.disk == y.installed
  {
    StartInv(start);
    RunKeeps(start, steps, y);
    forall n: nat | n < |y.disk| ensures y.disk[n] == y.installed[n] {
      assert RestOk(y, n);
      if i :| 0 <= i < |y.bufs| && For(y.bufs[i], ROOTDEV, n) {
        assert BufOk(y, i);
      }
    }
  }

  /** After any run no client is stopped by a panic: whoever holds a buffer passes
      holdingsleep and nobody else does; bread of a block of the disk returns; one
      that has returned from bread may change, mark and write its buffer, and
      unlock it once it has nothing unmarked; one that has unlocked its buffer can
      give it back. */
  lemma ClientsGoOn(start: Sys, steps: seq<Step>, y: Sys, u: nat, data: Block)
    requires Start(start) && Run(start, steps, y)
    ensures Shaped(y)
    ensures Holding(y, u) ==> forall v :: v in y.uses && y.uses[v].b == y.uses[u].b ==> (HoldsSleep(y, v) <==> v == u)
    ensures At(y, u, Locked) && y.uses[u].dev == ROOTDEV && y.uses[u].blockno < |y.disk| ==> Enabled(y, Fill(u))
    ensures IsReady(y, u) ==> Enabled(y, Change(u, data)) && Enabled(y, Mark(u)) && Enabled(y, Write(u))
    ensures At(y, u, Ready(false)) ==> Enabled(y, Unlock(u))
    ensures At(y, u, Leaves) ==> Enabled(y, Drop(u))
  {
    StartInv(start);
    RunKeeps(start, steps, y);
    if u in y.uses {
      assert UseOk(y, u) && BufOk(y, y.uses[u].b);
      NoRefs(y, y.uses[u].b, u);
    }
  }
}
