/** What becomes of the log when its guard, read before the lock is taken, lets too
    many blocks in: runs that panic, that overrun the log area, and that leave a
    disk which recovery cannot put right; and the log sizes for which there are
    such runs. */
module LogOverruns {
  import opened Common
  import opened RedoLog
  import opened GroupCommit

  ghost predicate Reaches(g: Geometry, d0: Disk, s: Sys) {
    exists steps :: Run(g, Start(d0), steps, s)
  }

  /** By a run in which commit writes in the log area only. */
  ghost predicate ReachesClean(g: Geometry, d0: Disk, s: Sys) {
    exists steps :: Run(g, Start(d0), steps, s) && Clean(g, Start(d0), steps)
  }

  lemma {:induction false} RunSnoc(g: Geometry, s: Sys, steps: seq<Step>, s': Sys, a: Step)
    requires Run(g, s, steps, s') && Enabled(g, s', a)
    ensures Run(g, s, steps + [a], Next(g, s', a))
    ensures Clean(g, s, steps) && !Clobbers(g, s', a) ==> Clean(g, s, steps + [a])
    decreases |steps|
  {
    if steps != [] {
      RunSnoc(g, Next(g, s, steps[0]), steps[1..], s', a);
      assert (steps + [a])[1..] == steps[1..] + [a];
    } else {
      assert Run(g, Next(g, s, a), [], Next(g, s, a));
      assert (steps + [a])[1..] == [];
    }
  }

  lemma ReachStep(g: Geometry, d0: Disk, s: Sys, a: Step)
    requires ReachesClean(g, d0, s) && Enabled(g, s, a)
    ensures Reaches(g, d0, Next(g, s, a))
    ensures !Clobbers(g, s, a) ==> ReachesClean(g, d0, Next(g, s, a))
  {
    var steps :| Run(g, Start(d0), steps, s) && Clean(g, Start(d0), steps);
    RunSnoc(g, Start(d0), steps, s, a);
  }

  /** Room behind the log for more blocks than a log can hold. */
  predicate Roomy(g: Geometry, d0: Disk) {
    Formatted(g, d0) && g.start + g.size + LOGSIZE <= |d0|
  }

  // ---- filling the log ----------------------------------------------------

  /** Which of three operations adds block number m: nine by the first, nine by the
      second, ten by the third, and the last two by the first and the second. */
  function Turn(m: nat): (k: nat)
    ensures k < 3
  {
    if m < 9 then 0 else if m < 18 then 1 else if m < 28 then 2 else if m == 28 then 0 else 1
  }

  /** How many of m blocks operation k has added then. */
  function Share(m: nat, k: int): int {
    if k == 0 then (if m < 9 then m else 9) + (if m > 28 then 1 else 0)
    else if k == 1 then (if m < 9 then 0 else if m < 18 then m - 9 else 9) + (if m > 29 then 1 else 0)
    else if m < 18 then 0 else if m < 28 then m - 18 else 10
  }

  lemma ShareStep(m: nat, k: int)
    requires 0 <= k < 3 && m < LOGSIZE
    ensures Share(m + 1, k) == Share(m, k) + if k == Turn(m) then 1 else 0
    ensures Share(m, Turn(m)) < MAXOPBLOCKS && Share(0, k) == 0
  {
  }

  /** The m blocks right behind the log area are logged, and nothing has been
      written. */
  ghost predicate Logs(g: Geometry, d0: Disk, s: Sys, m: nat) {
    && !s.panicked && |s.lh| == m && s.disk == d0 && s.durable == 0
    && (forall i :: 0 <= i < m ==> s.lh[i] == g.start + g.size + i)
  }

  /** Three operations are running and have added them between them. */
  ghost predicate Filled(g: Geometry, d0: Disk, s: Sys, m: nat) {
    && Logs(g, d0, s, m) && s.phase.Idle? && |s.ops| == 3
    && (forall k :: 0 <= k < 3 ==> s.ops[k].pending.None? && s.ops[k].appended == Share(m, k))
  }

  lemma {:induction false} Fill(g: Geometry, d0: Disk, m: nat) returns (s: Sys)
    requires Roomy(g, d0) && m <= LOGSIZE && m <= g.size - 1
    ensures ReachesClean(g, d0, s) && Filled(g, d0, s, m)
  {
    if m == 0 {
      s := Start(d0);
      assert Run(g, s, [], s) && Clean(g, s, []);
      for k := 0 to 3
        invariant ReachesClean(g, d0, s) && Logs(g, d0, s, 0) && s.phase.Idle? && |s.ops| == k
        invariant forall j :: 0 <= j < k ==> s.ops[j].pending.None? && s.ops[j].appended == 0
      {
        ReachStep(g, d0, s, Begin);
        s := Next(g, s, Begin);
      }
    } else {
      s := Fill(g, d0, m - 1);
      s := FillOne(g, d0, s, m - 1);
    }
  }

  lemma FillOne(g: Geometry, d0: Disk, s0: Sys, m: nat) returns (s: Sys)
    requires Roomy(g, d0) && m < LOGSIZE && m < g.size - 1
    requires ReachesClean(g, d0, s0) && Filled(g, d0, s0, m)
    ensures ReachesClean(g, d0, s) && Filled(g, d0, s, m + 1)
  {
    var k, b := Turn(m), g.start + g.size + m;
    var data: Block := seq(BWORDS, _ => 0);
    FillSteps(g, d0, s0, m, data);
    ReachStep(g, d0, s0, Guard(k, b));
    var s1 := Next(g, s0, Guard(k, b));
    ReachStep(g, d0, s1, Append(k, data));
    s := Next(g, s1, Append(k, data));
  }

  /** The operation whose turn it is adds one more block. */
  lemma FillSteps(g: Geometry, d0: Disk, s0: Sys, m: nat, data: Block)
    requires Filled(g, d0, s0, m) && m < LOGSIZE && m < g.size - 1 && g.start + g.size + LOGSIZE <= |s0.disk|
    ensures var k, b := Turn(m), g.start + g.size + m;
      && Enabled(g, s0, Guard(k, b))
      && var s1 := Next(g, s0, Guard(k, b));
         && Enabled(g, s1, Append(k, data))
         && Filled(g, d0, Next(g, s1, Append(k, data)), m + 1)
  {
    ShareStep(m, 0);
    ShareStep(m, 1);
    ShareStep(m, 2);
    assert s0.ops[Turn(m)].appended < MAXOPBLOCKS;
    assert forall i :: 0 <= i < m ==> s0.lh[i] != g.start + g.size + m;
  }

  // ---- panics -------------------------------------------------------------

  ghost predicate TripsOnAppend(g: Geometry, d0: Disk) {
    exists s, k: nat, b: nat {:trigger Next(g, s, Guard(k, b))} ::
      Reaches(g, d0, s) && Enabled(g, s, Guard(k, b)) && b !in s.lh && Next(g, s, Guard(k, b)).panicked
  }

  /** The guard of log_write can stop an operation that is within its budget
      and adds a new block exactly when log.size is no larger than LOGSIZE. */
  lemma GuardTooTight(g: Geometry, d0: Disk)
    requires Roomy(g, d0)
    ensures TripsOnAppend(g, d0) <==> g.size <= LOGSIZE
  {
    if g.size <= LOGSIZE {
      var m := g.size - 1;
      var s := Fill(g, d0, m);
      var k, b := Turn(m), g.start + g.size + m;
      ShareStep(m, k);
      assert Enabled(g, s, Guard(k, b)) && Next(g, s, Guard(k, b)).panicked;
    } else if TripsOnAppend(g, d0) {
      var s, k: nat, b: nat :|
        Reaches(g, d0, s) && Enabled(g, s, Guard(k, b)) && b !in s.lh && Next(g, s, Guard(k, b)).panicked;
      var steps :| Run(g, Start(d0), steps, s);
      BudgetSuffices(g, d0, steps, s, k, b);
    }
  }

  /** Even with a log of any larger size, rewriting a block that is already
      logged panics once the log is full. */
  lemma AbsorbedWriteTrips(g: Geometry, d0: Disk) returns (s: Sys)
    requires Roomy(g, d0) && LOGSIZE < g.size
    ensures |s.lh| == LOGSIZE && Reaches(g, d0, s)
    ensures Enabled(g, s, Guard(0, s.lh[0])) && Next(g, s, Guard(0, s.lh[0])).panicked
  {
    s := Fill(g, d0, LOGSIZE);
  }

  /** Three operations that have nothing pending end one after the other, and the
      last one out starts the commit. */
  lemma AllEnd(g: Geometry, d0: Disk, s0: Sys, m: nat) returns (s: Sys)
    requires ReachesClean(g, d0, s0) && Logs(g, d0, s0, m) && m > 0 && s0.phase.Idle? && |s0.ops| == 3
    requires forall k :: 0 <= k < 3 ==> s0.ops[k].pending.None?
    ensures ReachesClean(g, d0, s) && Logs(g, d0, s, m) && s.cache == s0.cache && s.phase == Committing(0, d0)
  {
    s := s0;
    for k := 0 to 3
      invariant ReachesClean(g, d0, s) && Logs(g, d0, s, m) && s.cache == s0.cache && |s.ops| == 3 - k
      invariant forall j :: 0 <= j < |s.ops| ==> s.ops[j].pending.None?
      invariant if k < 3 then s.phase.Idle? else s.phase == Committing(0, d0)
    {
      ReachStep(g, d0, s, End(0));
      s := Next(g, s, End(0));
    }
  }

  /** A transaction as large as the log admits pins as many buffers, and its commit
      panics when the cache has no more. */
  lemma FullCommitPanics(g: Geometry, d0: Disk) returns (s: Sys)
    requires Roomy(g, d0) && LOGSIZE < g.size && g.nbuf <= LOGSIZE
    ensures Reaches(g, d0, s) && s.phase == Committing(0, d0) && |s.lh| == LOGSIZE
    ensures Enabled(g, s, DiskWrite) && Next(g, s, DiskWrite).panicked
  {
    s := Fill(g, d0, LOGSIZE);
    s := AllEnd(g, d0, s, LOGSIZE);
    var steps :| Run(g, Start(d0), steps, s) && Clean(g, Start(d0), steps);
    GroupCommitSafe(g, d0, steps, s);
    CommitNeedsBuffer(g, d0, steps, s);
  }

  // ---- the race -----------------------------------------------------------

  ghost predicate Overruns(g: Geometry, d0: Disk) {
    exists s :: Reaches(g, d0, s) && !s.panicked && |s.lh| > g.size - 1
  }

  /** Because the guard is read before the lock is taken, two operations within
      budget can push the transaction past the end of the log area; they can
      exactly when 2 <= log.size <= LOGSIZE. */
  lemma GuardRace(g: Geometry, d0: Disk)
    requires Roomy(g, d0)
    ensures Overruns(g, d0) <==> 2 <= g.size <= LOGSIZE
  {
    if 2 <= g.size <= LOGSIZE {
      var s := RaceRun(g, d0, d0[0]);
    } else if g.size > LOGSIZE {
      forall s | Reaches(g, d0, s) ensures |s.lh| <= g.size - 1 {
        var steps :| Run(g, Start(d0), steps, s);
        GroupCommitSafe(g, d0, steps, s);
      }
    } else {
      forall s | Reaches(g, d0, s) ensures s.panicked || s.lh == [] {
        var steps :| Run(g, Start(d0), steps, s);
        TinyLog(g, d0, Start(d0), steps, s);
      }
    }
  }

  /** One block more than the log holds, the last with the given contents. */
  ghost predicate Overfull(g: Geometry, d0: Disk, s: Sys, data: Block) {
    && 0 < g.size && Logs(g, d0, s, g.size) && s.lh[g.size - 1] in s.cache && s.cache[s.lh[g.size - 1]] == data
  }

  /** Two operations both pass the guard before either appends. */
  lemma RaceRun(g: Geometry, d0: Disk, data: Block) returns (s: Sys)
    requires Roomy(g, d0) && 2 <= g.size <= LOGSIZE
    ensures ReachesClean(g, d0, s) && Overfull(g, d0, s, data) && s.phase.Idle? && |s.ops| == 3
    ensures forall k :: 0 <= k < 3 ==> s.ops[k].pending.None?
  {
    var m := g.size - 2;
    var b := g.start + g.size + m;
    s := Fill(g, d0, m);
    assert Share(m, 0) < MAXOPBLOCKS && Share(m, 1) < MAXOPBLOCKS;
    ReachStep(g, d0, s, Guard(0, b));
    s := Next(g, s, Guard(0, b));
    ReachStep(g, d0, s, Guard(1, b + 1));
    s := Next(g, s, Guard(1, b + 1));
    s := BothAppend(g, d0, s, m, data);
  }

  lemma BothAppend(g: Geometry, d0: Disk, s0: Sys, m: nat, data: Block) returns (s: Sys)
    requires ReachesClean(g, d0, s0) && Logs(g, d0, s0, m) && s0.phase.Idle? && |s0.ops| == 3 && m == g.size - 2
    requires s0.ops[0].pending == Passed(g.start + g.size + m) && s0.ops[1].pending == Passed(g.start + g.size + m + 1)
    requires s0.ops[2].pending.None?
    ensures ReachesClean(g, d0, s) && Overfull(g, d0, s, data) && s.phase.Idle? && |s.ops| == 3
    ensures forall k :: 0 <= k < 3 ==> s.ops[k].pending.None?
  {
    ReachStep(g, d0, s0, Append(0, data));
    var s1 := Next(g, s0, Append(0, data));
    assert Logs(g, d0, s1, m + 1);
    ReachStep(g, d0, s1, Append(1, data));
    s := Next(g, s1, Append(1, data));
    assert Logs(g, d0, s, m + 2);
  }

  /** A log of one block admits no write at all. */
  lemma {:induction false} TinyLog(g: Geometry, d0: Disk, s: Sys, steps: seq<Step>, s': Sys)
    requires g.size == 1 && Fits(g, |d0|) && Run(g, s, steps, s') && |s.disk| == |d0| && s.disk[g.start][0] == 0
    requires s.lh == [] && (forall k :: 0 <= k < |s.ops| ==> s.ops[k].pending.None?) && !s.phase.Committing?
    ensures Clean(g, s, steps) && (s'.panicked || s'.lh == [])
    decreases |steps|
  {
    if steps != [] {
      var a, s1 := steps[0], Next(g, s, steps[0]);
      if a.Guard? {
        assert s1.panicked && Run(g, s1, steps[1..], s');
      } else {
        if a.DiskWrite? { HeadRoundTrip(g, s.disk, []); }
        TinyLog(g, d0, s1, steps[1..], s');
      }
    }
  }

  // ---- a disk that recovery cannot put right ------------------------------

  /** The commit of an overfull log has made w writes, all in the log area. */
  ghost predicate Underway(g: Geometry, d0: Disk, s: Sys, data: Block, w: nat) {
    && !s.panicked && |s.lh| == g.size && s.phase == Committing(w, d0) && |s.disk| == |d0|
    && (forall i :: 0 <= i < g.size ==> s.lh[i] == g.start + g.size + i)
    && (0 < g.size ==> s.lh[g.size - 1] in s.cache && s.cache[s.lh[g.size - 1]] == data)
    && (g.start + g.size < |d0| ==> s.disk[g.start + g.size] == d0[g.start + g.size])
  }

  lemma {:induction false} WriteOn(g: Geometry, d0: Disk, s0: Sys, data: Block, w: nat) returns (s: Sys)
    requires Roomy(g, d0) && 2 <= g.size < g.nbuf && w <= g.size - 1
    requires ReachesClean(g, d0, s0) && Underway(g, d0, s0, data, 0)
    ensures ReachesClean(g, d0, s) && Underway(g, d0, s, data, w) && Enabled(g, s, DiskWrite)
    decreases w
  {
    s := s0;
    if w > 0 {
      s := WriteOn(g, d0, s0, data, w - 1);
      WriteOnce(g, d0, s, data, w - 1);
      ReachStep(g, d0, s, DiskWrite);
      s := Next(g, s, DiskWrite);
    }
    var steps :| Run(g, Start(d0), steps, s) && Clean(g, Start(d0), steps);
    GroupCommitSafe(g, d0, steps, s);
    assert !Stuck(g, s);
  }

  lemma WriteOnce(g: Geometry, d0: Disk, s: Sys, data: Block, w: nat)
    requires Roomy(g, d0) && 2 <= g.size < g.nbuf && w < g.size - 1
    requires Underway(g, d0, s, data, w) && Enabled(g, s, DiskWrite)
    ensures Underway(g, d0, Next(g, s, DiskWrite), data, w + 1)
  {
    assert s.lh[g.size - 1] != g.start + 1 + w;
  }

  /** A crash that no recovery makes good: two operations within budget overrun the
      log, and the commit writes the last block over a home before its header. */
  lemma OverrunCorrupts(g: Geometry, d0: Disk) returns (s: Sys)
    requires Roomy(g, d0) && 2 <= g.size <= LOGSIZE && g.size < g.nbuf
    ensures Reaches(g, d0, s) && !Consistent(g, d0, s)
  {
    var data := Other(d0[g.start + g.size]);
    var s1 := RaceRun(g, d0, data);
    var s2 := AllEnd(g, d0, s1, g.size);
    var s3 := WriteOn(g, d0, s2, data, g.size - 1);
    var steps :| Run(g, Start(d0), steps, s3) && Clean(g, Start(d0), steps);
    ClobberExactly(g, d0, steps, s3);
    ReachStep(g, d0, s3, DiskWrite);
    s := Next(g, s3, DiskWrite);
  }

  function Other(x: Block): (y: Block)
    ensures y != x
  {
    x[0 := x[0] + 1]
  }

  /** The log sizes for which a commit may write behind the log area: the race can
      fill a log of that size one block too far, and the cache has a buffer left to
      commit it with. */
  predicate Overrunnable(g: Geometry) {
    2 <= g.size <= LOGSIZE && g.size < g.nbuf
  }

  lemma {:induction false} StaysClean(g: Geometry, n: nat, s: Sys, steps: seq<Step>, s': Sys)
    requires Sane(g, n, s) && Run(g, s, steps, s') && (LOGSIZE < g.size || g.nbuf <= g.size)
    ensures Clean(g, s, steps)
    decreases |steps|
  {
    if steps != [] {
      SaneStep(g, n, s, steps[0]);
      StaysClean(g, n, Next(g, s, steps[0]), steps[1..], s');
    }
  }

  /** Crash consistency, exactly.  On a disk with room behind the log, every state
      of every run is one that recovery makes good if and only if the log cannot be
      overrun. */
  lemma ConsistentExactly(g: Geometry, d0: Disk)
    requires Roomy(g, d0)
    ensures (forall s :: Reaches(g, d0, s) ==> Consistent(g, d0, s)) <==> !Overrunnable(g)
    ensures g.nbuf > LOGSIZE ==> (Overrunnable(g) <==> 2 <= g.size <= LOGSIZE)
  {
    if Overrunnable(g) {
      var s := OverrunCorrupts(g, d0);
    } else {
      forall s | Reaches(g, d0, s) ensures Consistent(g, d0, s) {
        var steps :| Run(g, Start(d0), steps, s);
        if g.size == 1 {
          TinyLog(g, d0, Start(d0), steps, s);
        } else {
          StartInv(g, d0);
          StaysClean(g, |d0|, Start(d0), steps, s);
        }
        CrashConsistency(g, d0, steps, s);
      }
    }
  }

  /** The sizes the kernel is built with: a log of LOGSIZE blocks is safe exactly
      because there are no more buffers than that. */
  lemma ShippedSize(g: Geometry, d0: Disk)
    requires Roomy(g, d0) && g.size == LOGSIZE
    ensures (forall s :: Reaches(g, d0, s) ==> Consistent(g, d0, s)) <==> g.nbuf <= LOGSIZE
    ensures g.nbuf == NBUF ==> forall s :: Reaches(g, d0, s) ==> Consistent(g, d0, s)
  {
    ConsistentExactly(g, d0);
  }
}
