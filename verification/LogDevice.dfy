/** log.c as it runs: the in-memory log header, the pinned buffers and the disk,
    updated in place.  The ghost trace records the disk after every block write,
    that is, every disk a crash can leave behind. */
module LogDevice {
  import opened Common
  import opened RedoLog
  import GroupCommit

  class Log {
    const g: Geometry
    var disk: Disk
    var cache: map<nat, Block>     // dirty buffers; all others equal the disk
    var n: nat
    const block: array<nat>
    var outstanding: nat
    var committing: bool
    ghost var trace: seq<Disk>

    ghost predicate Valid()
      reads this, block
    {
      && block.Length == LOGSIZE && n <= LOGSIZE
      && Fits(g, |disk|) && GoodList(g, |disk|, block[..n])
    }

    ghost function Logged(): (lh: seq<nat>)
      reads this, block
      requires n <= block.Length
      ensures |lh| == n
    {
      block[..n]
    }

    /** initlog, before recovery. */
    constructor (g: Geometry, d: Disk)
      requires Fits(g, |d|)
      ensures Valid() && this.g == g && disk == d && cache == map[] && n == 0 && outstanding == 0 && !committing
      ensures trace == [] && fresh(block)
    {
      this.g, disk, cache, n, outstanding, committing := g, d, map[], 0, 0, false;
      block := new nat[LOGSIZE](_ => 0);
      trace := [];
    }

    /** One pass of begin_op's loop; false means it would sleep. */
    method BeginOp() returns (admitted: bool)
      requires Valid()
      modifies this`outstanding
      ensures Valid()
      ensures admitted <==> !committing && n + (old(outstanding) + 1) * MAXOPBLOCKS <= LOGSIZE
      ensures outstanding == old(outstanding) + if admitted then 1 else 0
    {
      if committing || n + (outstanding + 1) * MAXOPBLOCKS > LOGSIZE {
        return false;
      }
      outstanding := outstanding + 1;
      return true;
    }

    /** log_write of block b, whose buffer now holds data; false is a panic. */
    method LogWrite(b: nat, data: Block) returns (ok: bool)
      requires Valid() && IsHome(g, |disk|, b)
      modifies this`n, this`cache, block
      ensures ok <==> !GroupCommit.LogFull(g, old(Logged())) && outstanding >= 1
      ensures !ok ==> n == old(n) && Logged() == old(Logged()) && cache == old(cache)
      ensures ok ==> Valid() && cache == old(cache)[b := data]
      ensures ok ==> Logged() == if b in old(Logged()) then old(Logged()) else old(Logged()) + [b]
    {
      if n >= LOGSIZE || n >= g.size - 1 || outstanding < 1 {
        return false;
      }
      var i := 0;
      while i < n && block[i] != b
        invariant 0 <= i <= n && forall j :: 0 <= j < i ==> block[j] != b
      {
        i := i + 1;
      }
      ghost var lh := block[..n];
      assert i < n <==> b in lh by {
        if i < n { assert lh[i] == b; }
      }
      block[i] := b;
      if i == n {
        n := n + 1;
      }
      assert block[..n] == if b in lh then lh else lh + [b];
      cache := cache[b := data];
      return true;
    }

    /** bwrite: one atomic block write. */
    method WriteBlock(b: nat, data: Block)
      requires b < |disk|
      modifies this`disk, this`trace
      ensures disk == old(disk)[b := data] && trace == old(trace) + [disk]
    {
      disk := disk[b := data];
      trace := trace + [disk];
    }

    /** write_log.  Every logged block pins a buffer, so without one more for the log
        block the first bread panics. */
    method WriteLog() returns (ok: bool)
      requires Valid() && forall b :: b in Logged() ==> b in cache
      modifies this`disk, this`trace
      ensures Valid() && (ok <==> n == 0 || n < g.nbuf)
      ensures !ok ==> disk == old(disk) && trace == old(trace)
      ensures ok ==> disk == AfterCommitWrites(g, old(disk), cache, Logged(), n)
      ensures ok ==> trace == old(trace) + CommitTrace(g, old(disk), cache, Logged(), n)
    {
      if n > 0 && n >= g.nbuf {
        return false;
      }
      ghost var d0, t0, lh := disk, trace, block[..n];
      for tail := 0 to n
        invariant |disk| == |d0| && disk == AfterCommitWrites(g, d0, cache, lh, tail)
        invariant trace == t0 + CommitTrace(g, d0, cache, lh, tail)
      {
        assert lh[tail] in lh;
        WriteBlock(g.start + tail + 1, cache[block[tail]]);
      }
      return true;
    }

    method WriteHeader()
      requires block.Length == LOGSIZE && n <= LOGSIZE && Fits(g, |disk|)
      modifies this`disk, this`trace
      ensures disk == WriteHead(g, old(disk), Logged()) && trace == old(trace) + [disk]
    {
      ghost var lh := block[..n];
      var prev := disk[g.start];
      var hb: seq<nat> := prev[0 := n];
      for i := 0 to n
        invariant |hb| == BWORDS && hb[0] == n
        invariant forall j :: 0 <= j < i ==> hb[1 + j] == block[j]
        invariant forall j :: 1 + i <= j < BWORDS ==> hb[j] == prev[j]
      {
        hb := hb[1 + i := block[i]];
      }
      assert hb == HeaderWith(prev, lh);
      WriteBlock(g.start, hb);
    }

    /** install_trans: copy log blocks home; a written buffer is clean again. */
    method InstallTrans()
      requires Valid()
      modifies this`disk, this`trace, this`cache
      ensures Valid() && disk == AfterRecoverWrites(g, old(disk), Logged(), n)
      ensures cache == old(cache) - (set b | b in Logged())
      ensures trace == old(trace) + RecoverTrace(g, old(disk), Logged(), n)
    {
      ghost var d0, t0, c0, lh := disk, trace, cache, block[..n];
      for tail := 0 to n
        invariant |disk| == |d0| && disk == AfterRecoverWrites(g, d0, lh, tail)
        invariant cache == c0 - (set b | b in lh[..tail])
        invariant trace == t0 + RecoverTrace(g, d0, lh, tail)
      {
        assert IsHome(g, |d0|, lh[tail]);
        WriteBlock(block[tail], disk[g.start + tail + 1]);
        cache := cache - {block[tail]};
        assert lh[..tail + 1] == lh[..tail] + [lh[tail]];
      }
      assert lh[..n] == lh;
    }

    method ReadHeader()
      requires block.Length == LOGSIZE && Recoverable(g, disk)
      modifies this`n, block
      ensures Valid() && Logged() == ReadHead(g, disk)
    {
      var hb := disk[g.start];
      n := hb[0];
      for i := 0 to n
        invariant n == hb[0] && forall j :: 0 <= j < i ==> block[j] == hb[1 + j]
      {
        block[i] := hb[1 + i];
      }
      assert block[..n] == ReadHead(g, disk);
    }

    /** recover_from_log.  Every disk on the way is one that recovery started
        afresh would bring to the same homes. */
    method RecoverFromLog()
      requires block.Length == LOGSIZE && Recoverable(g, disk) && cache == map[]
      modifies this`disk, this`trace, this`cache, this`n, block
      ensures Valid() && n == 0 && disk == Recover(g, old(disk)) && cache == map[]
      ensures trace == old(trace) + RecoverTrace(g, old(disk), ReadHead(g, old(disk)), |ReadHead(g, old(disk))| + 1)
    {
      ReadHeader();
      InstallTrans();
      n := 0;
      WriteHeader();
      assert block[..0] == [];
    }

    /** commit(); false is a panic.  CommitTraceSafe says what a crash on the way
        leaves, and CommitWorks what the disk holds in the end. */
    method Commit() returns (ok: bool)
      requires Valid() && (forall b :: b in Logged() <==> b in cache)
      modifies this`disk, this`trace, this`cache, this`n
      ensures ok <==> old(n) == 0 || old(n) < g.nbuf
      ensures !ok ==> disk == old(disk) && trace == old(trace) && cache == old(cache) && n == old(n)
      ensures ok ==> Valid() && n == 0 && cache == map[]
      ensures ok && old(n) == 0 ==> disk == old(disk) && trace == old(trace)
      ensures ok && old(n) > 0 ==>
        disk == AfterCommitWrites(g, old(disk), old(cache), old(Logged()), CommitWrites(old(Logged())))
      ensures ok && old(n) > 0 ==>
        trace == old(trace) + CommitTrace(g, old(disk), old(cache), old(Logged()), CommitWrites(old(Logged())))
    {
      ghost var t0, d0, c0, lh := trace, disk, cache, block[..n];
      AllClean(c0, lh);
      if n > 0 {
        CommitTraceStages(g, d0, c0, lh);
        ok := WriteLog();
        if !ok { return; }
        WriteHeader();
        ghost var d2 := disk;
        InstallTrans();
        n := 0;
        assert block[..0] == [];
        WriteHeader();
        Regroup(t0, CommitTrace(g, d0, c0, lh, |lh|), [d2], RecoverTrace(g, d2, lh, |lh|), [disk]);
      }
      return true;
    }

    /** end_op: the last operation to end commits; true is a panic. */
    method EndOp() returns (panicked: bool)
      requires Valid() && outstanding >= 1 && (forall b :: b in Logged() <==> b in cache) && disk[g.start][0] == 0
      modifies this`outstanding, this`committing, this`disk, this`trace, this`cache, this`n
      ensures panicked <==> old(committing) || (old(outstanding) == 1 && old(n) > 0 && old(n) >= g.nbuf)
      ensures panicked ==> disk == old(disk) && trace == old(trace)
      ensures outstanding == old(outstanding) - 1
      ensures !panicked ==> Valid() && !committing
      ensures !panicked && outstanding > 0 ==>
        disk == old(disk) && cache == old(cache) && n == old(n) && trace == old(trace)
      ensures !panicked && outstanding == 0 ==>
        n == 0 && cache == map[] && IsOverlay(g, old(disk), old(cache), old(Logged()), disk)
    {
      outstanding := outstanding - 1;
      if committing {
        return true;
      }
      if outstanding == 0 {
        committing := true;
        if n > 0 { CommitWorks(g, disk, cache, block[..n]); }
        var ok := Commit();
        if !ok { return true; }
        committing := false;
      }
      return false;
    }
  }

  lemma AllClean(cache: map<nat, Block>, lh: seq<nat>)
    requires forall b :: b in lh <==> b in cache
    ensures cache - (set b | b in lh) == map[]
  {
    assert cache.Keys == set b | b in lh;
  }

  lemma Regroup<T>(a: seq<T>, b: seq<T>, c: seq<T>, d: seq<T>, e: seq<T>)
    ensures a + b + c + d + e == a + (b + c + d + e)
  {
  }

  /** The disks after each of the first w writes of commit(). */
  function CommitTrace(g: Geometry, d: Disk, cache: map<nat, Block>, lh: seq<nat>, w: nat): (t: seq<Disk>)
    requires Fits(g, |d|) && GoodList(g, |d|, lh) && (forall b :: b in lh ==> b in cache)
    ensures |t| == w
  {
    if w == 0 then [] else CommitTrace(g, d, cache, lh, w - 1) + [AfterCommitWrites(g, d, cache, lh, w)]
  }

  /** The disks after each of the first w writes of recover_from_log(). */
  function RecoverTrace(g: Geometry, d: Disk, lh: seq<nat>, w: nat): (t: seq<Disk>)
    requires Fits(g, |d|) && GoodList(g, |d|, lh)
    ensures |t| == w
  {
    if w == 0 then [] else RecoverTrace(g, d, lh, w - 1) + [AfterRecoverWrites(g, d, lh, w)]
  }

  /** The trace of commit is that of its four parts. */
  lemma CommitTraceStages(g: Geometry, d: Disk, cache: map<nat, Block>, lh: seq<nat>)
    requires Fits(g, |d|) && GoodList(g, |d|, lh) && (forall b :: b in lh ==> b in cache)
    ensures var n := |lh|;
      var d2 := WriteHead(g, AfterCommitWrites(g, d, cache, lh, n), lh);
      var d3 := AfterRecoverWrites(g, d2, lh, n);
      && AfterCommitWrites(g, d, cache, lh, CommitWrites(lh)) == WriteHead(g, d3, [])
      && CommitTrace(g, d, cache, lh, CommitWrites(lh))
         == CommitTrace(g, d, cache, lh, n) + [d2] + RecoverTrace(g, d2, lh, n) + [WriteHead(g, d3, [])]
  {
    InstallStage(g, d, cache, lh, |lh|);
  }

  lemma {:induction false} InstallStage(g: Geometry, d: Disk, cache: map<nat, Block>, lh: seq<nat>, k: nat)
    requires Fits(g, |d|) && GoodList(g, |d|, lh) && (forall b :: b in lh ==> b in cache) && k <= |lh|
    ensures var d2 := WriteHead(g, AfterCommitWrites(g, d, cache, lh, |lh|), lh);
      && AfterCommitWrites(g, d, cache, lh, |lh| + 1 + k) == AfterRecoverWrites(g, d2, lh, k)
      && CommitTrace(g, d, cache, lh, |lh| + 1 + k)
         == CommitTrace(g, d, cache, lh, |lh|) + [d2] + RecoverTrace(g, d2, lh, k)
  {
    if k > 0 {
      InstallStage(g, d, cache, lh, k - 1);
    }
  }

  /** Every disk on the way through commit recovers to the homes from before, if
      the header was not written yet, and to the whole transaction otherwise. */
  lemma {:induction false} CommitTraceSafe(g: Geometry, d: Disk, cache: map<nat, Block>, lh: seq<nat>, w: nat)
    requires Fits(g, |d|) && GoodList(g, |d|, lh) && (forall b :: b in lh ==> b in cache) && d[g.start][0] == 0
    requires w <= CommitWrites(lh)
    ensures forall t :: 0 <= t < w ==>
      && Recoverable(g, CommitTrace(g, d, cache, lh, w)[t])
      && if t < |lh| then SameHomes(g, d, Recover(g, CommitTrace(g, d, cache, lh, w)[t]))
         else IsOverlay(g, d, cache, lh, Recover(g, CommitTrace(g, d, cache, lh, w)[t]))
  {
    if w > 0 {
      CommitTraceSafe(g, d, cache, lh, w - 1);
      CommitCut(g, d, cache, lh, w);
    }
  }

  /** Every disk on the way through recovery recovers to the same homes. */
  lemma {:induction false} RecoverTraceSafe(g: Geometry, d: Disk, w: nat)
    requires Recoverable(g, d) && w <= |ReadHead(g, d)| + 1
    ensures forall t :: 0 <= t < w ==>
      && Recoverable(g, RecoverTrace(g, d, ReadHead(g, d), w)[t])
      && SameHomes(g, Recover(g, d), Recover(g, RecoverTrace(g, d, ReadHead(g, d), w)[t]))
  {
    if w > 0 {
      RecoverTraceSafe(g, d, w - 1);
      RecoverCut(g, d, w);
    }
  }

  /** A commit that runs to its end leaves the transaction at home and the log
      empty. */
  lemma CommitWorks(g: Geometry, d: Disk, cache: map<nat, Block>, lh: seq<nat>)
    requires Fits(g, |d|) && GoodList(g, |d|, lh) && (forall b :: b in lh ==> b in cache)
    ensures var e := AfterCommitWrites(g, d, cache, lh, CommitWrites(lh));
      e[g.start][0] == 0 && IsOverlay(g, d, cache, lh, e)
  {
    var e := AfterCommitWrites(g, d, cache, lh, CommitWrites(lh));
    CommitShapes(g, d, cache, lh, CommitWrites(lh), e);
    forall b: nat | IsHome(g, |d|, b) ensures e[b] == if b in lh && b in cache then cache[b] else d[b] {
      assert RestAt(g, d, lh, e, b);
      if b in lh {
        var i :| 0 <= i < |lh| && lh[i] == b;
        assert HomeAt(d, cache, lh, CommitWrites(lh), e, i);
      }
    }
  }
}
