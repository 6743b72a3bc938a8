/** The redo log of log.c: its on-disk format, commit and recovery as sequences
    of atomic block writes, and crash atomicity. */
module RedoLog {

  import opened Common

  const BWORDS: nat := 128        // a block is 512 bytes, here 128 words

  type Block = b: seq<nat> | |b| == BWORDS witness seq(BWORDS, _ => 0)
  type Disk = seq<Block>

  /** Where the log lives: the header at start, then the log blocks.  The buffer
      cache has nbuf buffers. */
  datatype Geometry = Geometry(start: nat, size: nat, nbuf: nat)

  /** The log lies within a disk of n blocks. */
  predicate Fits(g: Geometry, n: nat) {
    0 < g.size && g.start + g.size <= n
  }

  predicate IsHome(g: Geometry, n: nat, b: nat) {
    b < n && !(g.start <= b < g.start + g.size)
  }

  /** Block numbers a header may name: distinct homes, and not too many. */
  predicate HomeList(g: Geometry, n: nat, lh: seq<nat>) {
    && |lh| <= LOGSIZE
    && (forall i :: 0 <= i < |lh| ==> IsHome(g, n, lh[i]))
    && (forall i, j :: 0 <= i < j < |lh| ==> lh[i] != lh[j])
  }

  /** The images of these blocks lie on the disk, if not all in the log. */
  predicate OnDisk(g: Geometry, n: nat, lh: seq<nat>) {
    HomeList(g, n, lh) && g.start + 1 + |lh| <= n
  }

  /** The images of these blocks lie in the log. */
  predicate GoodList(g: Geometry, n: nat, lh: seq<nat>) {
    HomeList(g, n, lh) && |lh| <= g.size - 1
  }

  /** Log block i, the image of the block the header names at i. */
  function LogBlock(g: Geometry, d: Disk, i: nat): Block
    requires g.start + 1 + i < |d|
  {
    d[g.start + 1 + i]
  }

  // ---- the header block ---------------------------------------------------

  /** write_head's effect on the header block: stale entries stay behind. */
  function HeaderWith(prev: Block, lh: seq<nat>): Block
    requires |lh| <= LOGSIZE
  {
    [|lh|] + lh + prev[|lh| + 1..]
  }

  function ReadHead(g: Geometry, d: Disk): seq<nat>
    requires Fits(g, |d|) && d[g.start][0] <= LOGSIZE
  {
    d[g.start][1..1 + d[g.start][0]]
  }

  function WriteHead(g: Geometry, d: Disk, lh: seq<nat>): Disk
    requires Fits(g, |d|) && |lh| <= LOGSIZE
  {
    d[g.start := HeaderWith(d[g.start], lh)]
  }

  /** A disk whose header recovery can follow. */
  predicate Readable(g: Geometry, d: Disk) {
    Fits(g, |d|) && d[g.start][0] <= LOGSIZE && OnDisk(g, |d|, ReadHead(g, d))
  }

  /** A disk whose header names blocks with images in the log. */
  predicate Recoverable(g: Geometry, d: Disk) {
    Fits(g, |d|) && d[g.start][0] <= LOGSIZE && GoodList(g, |d|, ReadHead(g, d))
  }

  // ---- commit and recovery, write by write --------------------------------

  /** Block write number w of commit(): the log blocks, the header, the homes,
      the cleared header. */
  function CommitWrite(g: Geometry, d: Disk, cache: map<nat, Block>, lh: seq<nat>, w: nat): Disk
    requires Fits(g, |d|) && GoodList(g, |d|, lh) && (forall b :: b in lh ==> b in cache)
  {
    var n := |lh|;
    if w < n then d[g.start + 1 + w := cache[lh[w]]]
    else if w == n then WriteHead(g, d, lh)
    else if w <= 2 * n then d[lh[w - n - 1] := LogBlock(g, d, w - n - 1)]
    else WriteHead(g, d, [])
  }

  /** The disk after the first w writes of commit(). */
  function AfterCommitWrites(g: Geometry, d: Disk, cache: map<nat, Block>, lh: seq<nat>, w: nat): (r: Disk)
    requires Fits(g, |d|) && GoodList(g, |d|, lh) && (forall b :: b in lh ==> b in cache)
    ensures |r| == |d|
  {
    if w == 0 then d
    else CommitWrite(g, AfterCommitWrites(g, d, cache, lh, w - 1), cache, lh, w - 1)
  }

  function CommitWrites(lh: seq<nat>): nat {
    2 * |lh| + 2
  }

  /** Block write number w of recover_from_log(), the header naming lh. */
  function RecoverWrite(g: Geometry, d: Disk, lh: seq<nat>, w: nat): Disk
    requires Fits(g, |d|) && OnDisk(g, |d|, lh)
  {
    if w < |lh| then d[lh[w] := LogBlock(g, d, w)] else WriteHead(g, d, [])
  }

  /** The disk after w writes of recover_from_log(). */
  function AfterRecoverWrites(g: Geometry, d: Disk, lh: seq<nat>, w: nat): (r: Disk)
    requires Fits(g, |d|) && OnDisk(g, |d|, lh)
    ensures |r| == |d|
  {
    if w == 0 then d else RecoverWrite(g, AfterRecoverWrites(g, d, lh, w - 1), lh, w - 1)
  }

  /** A complete recovery. */
  function Recover(g: Geometry, d: Disk): Disk
    requires Readable(g, d)
  {
    AfterRecoverWrites(g, d, ReadHead(g, d), |ReadHead(g, d)| + 1)
  }

  // ---- what the homes hold ------------------------------------------------

  ghost predicate SameHomes(g: Geometry, d: Disk, e: Disk) {
    |d| == |e| && forall b: nat :: IsHome(g, |d|, b) ==> d[b] == e[b]
  }

  /** The disk with the transaction's blocks at home. */
  ghost predicate IsOverlay(g: Geometry, d: Disk, cache: map<nat, Block>, lh: seq<nat>, e: Disk) {
    |d| == |e| && forall b: nat :: IsHome(g, |d|, b) ==> e[b] == if b in lh && b in cache then cache[b] else d[b]
  }

  lemma HeadRoundTrip(g: Geometry, d: Disk, lh: seq<nat>)
    requires Fits(g, |d|) && |lh| <= LOGSIZE
    ensures WriteHead(g, d, lh)[g.start][0] == |lh|
    ensures ReadHead(g, WriteHead(g, d, lh)) == lh
  {
    var h := HeaderWith(d[g.start], lh);
    assert h[1..1 + |lh|] == lh;
  }

  /** The disk after w of the installing writes of a recovery of d. */
  ghost predicate RecoverShape(g: Geometry, d: Disk, lh: seq<nat>, w: nat, e: Disk)
    requires Fits(g, |d|) && GoodList(g, |d|, lh)
  {
    && |e| == |d|
    && (forall i :: 0 <= i < |lh| ==> e[lh[i]] == if i < w then LogBlock(g, d, i) else d[lh[i]])
    && (forall b: nat :: b < |d| && b !in lh ==> e[b] == d[b])
  }

  lemma {:induction false} RecoverShapes(g: Geometry, d: Disk, lh: seq<nat>, w: nat)
    requires Fits(g, |d|) && GoodList(g, |d|, lh) && w <= |lh|
    ensures RecoverShape(g, d, lh, w, AfterRecoverWrites(g, d, lh, w))
  {
    if w > 0 {
      RecoverShapes(g, d, lh, w - 1);
      var p := AfterRecoverWrites(g, d, lh, w - 1);
      assert p[g.start + w] == d[g.start + w] by {
        assert !IsHome(g, |d|, g.start + w);
      }
    }
  }

  /** Recovery puts log block i at home i and leaves the other homes alone. */
  ghost predicate Recovered(g: Geometry, d: Disk, lh: seq<nat>, e: Disk)
    requires Fits(g, |d|) && GoodList(g, |d|, lh)
  {
    && |e| == |d|
    && (forall i :: 0 <= i < |lh| ==> e[lh[i]] == LogBlock(g, d, i))
    && (forall b: nat :: IsHome(g, |d|, b) && b !in lh ==> e[b] == d[b])
  }

  /** Recovery installs the logged blocks, touches no other home block, and
      leaves an empty log. */
  lemma RecoverWorks(g: Geometry, d: Disk)
    requires Recoverable(g, d)
    ensures Recovered(g, d, ReadHead(g, d), Recover(g, d))
    ensures Recoverable(g, Recover(g, d)) && ReadHead(g, Recover(g, d)) == []
  {
    var lh := ReadHead(g, d);
    RecoverShapes(g, d, lh, |lh|);
    HeadRoundTrip(g, AfterRecoverWrites(g, d, lh, |lh|), []);
    assert !IsHome(g, |d|, g.start);
  }

  /** Two disks with the same log and the same other homes recover alike. */
  lemma RecoveredAlike(g: Geometry, d1: Disk, d2: Disk, lh: seq<nat>, e1: Disk, e2: Disk)
    requires Fits(g, |d1|) && GoodList(g, |d1|, lh) && |d2| == |d1|
    requires Recovered(g, d1, lh, e1) && Recovered(g, d2, lh, e2)
    requires forall i :: 0 <= i < |lh| ==> LogBlock(g, d1, i) == LogBlock(g, d2, i)
    requires forall b: nat :: IsHome(g, |d1|, b) && b !in lh ==> d1[b] == d2[b]
    ensures SameHomes(g, e1, e2)
  {
    forall b: nat | IsHome(g, |d1|, b) ensures e1[b] == e2[b] {
      if b in lh {
        var i :| 0 <= i < |lh| && lh[i] == b;
      }
    }
  }

  // ---- crash atomicity ----------------------------------------------------

  /** Log block i, home i and any other home after w writes of a commit that
      started on d. */
  predicate LogAt(g: Geometry, cache: map<nat, Block>, lh: seq<nat>, w: nat, e: Disk, i: nat) {
    i < |lh| && i < w && g.start + 1 + i < |e| && lh[i] in cache ==> LogBlock(g, e, i) == cache[lh[i]]
  }

  predicate HomeAt(d: Disk, cache: map<nat, Block>, lh: seq<nat>, w: nat, e: Disk, i: nat) {
    i < |lh| && lh[i] < |e| == |d| && lh[i] in cache ==> e[lh[i]] == if i < w - |lh| - 1 then cache[lh[i]] else d[lh[i]]
  }

  predicate RestAt(g: Geometry, d: Disk, lh: seq<nat>, e: Disk, b: nat) {
    IsHome(g, |d|, b) && |e| == |d| && b !in lh ==> e[b] == d[b]
  }

  /** The header: as before, then naming lh, then empty. */
  predicate HeadAt(g: Geometry, d: Disk, lh: seq<nat>, w: nat, e: Disk) {
    Fits(g, |d|) && |e| == |d| && |lh| <= LOGSIZE &&
    e[g.start] == (if w <= |lh| then d[g.start]
                   else if w <= 2 * |lh| + 1 then HeaderWith(d[g.start], lh)
                   else HeaderWith(HeaderWith(d[g.start], lh), []))
  }

  /** The disk after w writes of a commit that started on d. */
  ghost predicate CommitShape(g: Geometry, d: Disk, cache: map<nat, Block>, lh: seq<nat>, w: nat, e: Disk) {
    && HeadAt(g, d, lh, w, e) && (forall i: nat :: LogAt(g, cache, lh, w, e, i))
    && (forall i: nat :: HomeAt(d, cache, lh, w, e, i)) && (forall b: nat :: RestAt(g, d, lh, e, b))
  }

  lemma {:induction false} CommitShapes(g: Geometry, d: Disk, cache: map<nat, Block>, lh: seq<nat>, w: nat, e: Disk)
    requires Fits(g, |d|) && GoodList(g, |d|, lh) && (forall b :: b in lh ==> b in cache) && w <= CommitWrites(lh)
    requires e == AfterCommitWrites(g, d, cache, lh, w)
    ensures CommitShape(g, d, cache, lh, w, e)
    decreases w
  {
    if w == 0 {
      StartShape(g, d, cache, lh, w, e);
    } else {
      var p := AfterCommitWrites(g, d, cache, lh, w - 1);
      CommitShapes(g, d, cache, lh, w - 1, p);
      CommitWriteShape(g, d, cache, lh, w - 1, p, w, e);
    }
  }

  lemma StartShape(g: Geometry, d: Disk, cache: map<nat, Block>, lh: seq<nat>, w: nat, e: Disk)
    requires Fits(g, |d|) && |lh| <= LOGSIZE && w == 0 && e == d
    ensures CommitShape(g, d, cache, lh, w, e)
  {
  }

  lemma CommitWriteShape(g: Geometry, d: Disk, cache: map<nat, Block>, lh: seq<nat>, w: nat, p: Disk, w': nat, p': Disk)
    requires Fits(g, |d|) && GoodList(g, |d|, lh) && (forall b :: b in lh ==> b in cache) && w < CommitWrites(lh)
    requires CommitShape(g, d, cache, lh, w, p) && w' == w + 1 && p' == CommitWrite(g, p, cache, lh, w)
    ensures CommitShape(g, d, cache, lh, w', p')
  {
    forall i: nat ensures LogAt(g, cache, lh, w', p', i) {
      LogWritten(g, d, cache, lh, w, p, i);
    }
    forall i: nat ensures HomeAt(d, cache, lh, w', p', i) {
      HomeWritten(g, d, cache, lh, w, p, i);
    }
    forall b: nat ensures RestAt(g, d, lh, p', b) {
      assert RestAt(g, d, lh, p, b);
    }
    if |lh| < w <= 2 * |lh| {
      assert IsHome(g, |d|, lh[w - |lh| - 1]);
    }
  }

  /** What write number w does to the log blocks and to the homes. */
  lemma LogWritten(g: Geometry, d: Disk, cache: map<nat, Block>, lh: seq<nat>, w: nat, p: Disk, i: nat)
    requires Fits(g, |d|) && GoodList(g, |d|, lh) && (forall b :: b in lh ==> b in cache) && w < CommitWrites(lh)
    requires |p| == |d| && LogAt(g, cache, lh, w, p, i)
    ensures LogAt(g, cache, lh, w + 1, CommitWrite(g, p, cache, lh, w), i)
  {
    if |lh| < w <= 2 * |lh| {
      assert IsHome(g, |d|, lh[w - |lh| - 1]);
    }
  }

  lemma HomeWritten(g: Geometry, d: Disk, cache: map<nat, Block>, lh: seq<nat>, w: nat, p: Disk, i: nat)
    requires Fits(g, |d|) && GoodList(g, |d|, lh) && (forall b :: b in lh ==> b in cache) && w < CommitWrites(lh)
    requires |p| == |d| && HomeAt(d, cache, lh, w, p, i) && forall j: nat :: LogAt(g, cache, lh, w, p, j)
    ensures HomeAt(d, cache, lh, w + 1, CommitWrite(g, p, cache, lh, w), i)
  {
    if |lh| < w <= 2 * |lh| {
      assert LogAt(g, cache, lh, w, p, w - |lh| - 1);
    }
    if i < |lh| {
      assert IsHome(g, |d|, lh[i]);
    }
  }

  lemma ShapeHead(g: Geometry, d: Disk, cache: map<nat, Block>, lh: seq<nat>, w: nat, e: Disk)
    requires Fits(g, |d|) && GoodList(g, |d|, lh) && (forall b :: b in lh ==> b in cache)
    requires d[g.start][0] == 0 && CommitShape(g, d, cache, lh, w, e)
    ensures Recoverable(g, e) && ReadHead(g, e) == if |lh| < w <= 2 * |lh| + 1 then lh else []
  {
    HeadRoundTrip(g, d, lh);
    HeadRoundTrip(g, WriteHead(g, d, lh), []);
    assert ReadHead(g, e) == if |lh| < w <= 2 * |lh| + 1 then lh else [];
  }

  lemma ShapeRecovers(g: Geometry, d: Disk, cache: map<nat, Block>, lh: seq<nat>, w: nat, e: Disk, r: Disk,
                      now: seq<nat>)
    requires Fits(g, |d|) && GoodList(g, |d|, lh) && (forall b :: b in lh ==> b in cache)
    requires CommitShape(g, d, cache, lh, w, e) && |r| == |d| && w <= CommitWrites(lh)
    requires now == if |lh| < w <= 2 * |lh| + 1 then lh else []
    requires Recovered(g, e, now, r)
    ensures if w <= |lh| then SameHomes(g, d, r) else IsOverlay(g, d, cache, lh, r)
  {
    forall b: nat | IsHome(g, |d|, b) ensures r[b] == if w > |lh| && b in lh then cache[b] else d[b] {
      assert RestAt(g, d, lh, e, b);
      if b in lh {
        var i :| 0 <= i < |lh| && lh[i] == b;
        assert HomeAt(d, cache, lh, w, e, i) && LogAt(g, cache, lh, w, e, i);
      }
    }
  }

  /** Cut commit() after any number w of its block writes and recover: if the
      header had not been written the homes are as before the transaction, and
      otherwise all of the transaction is there. */
  lemma CommitCut(g: Geometry, d: Disk, cache: map<nat, Block>, lh: seq<nat>, w: nat)
    requires Fits(g, |d|) && GoodList(g, |d|, lh) && (forall b :: b in lh ==> b in cache)
    requires d[g.start][0] == 0 && w <= CommitWrites(lh)
    ensures var e := AfterCommitWrites(g, d, cache, lh, w);
      && Recoverable(g, e)
      && if w <= |lh| then SameHomes(g, d, Recover(g, e)) else IsOverlay(g, d, cache, lh, Recover(g, e))
  {
    var e := AfterCommitWrites(g, d, cache, lh, w);
    CommitShapes(g, d, cache, lh, w, e);
    ShapeHead(g, d, cache, lh, w, e);
    RecoverWorks(g, e);
    ShapeRecovers(g, d, cache, lh, w, e, Recover(g, e), ReadHead(g, e));
  }

  /** Recovery cut after c of its writes can be run again with the same result. */
  lemma RecoverCut(g: Geometry, d: Disk, c: nat)
    requires Recoverable(g, d) && c <= |ReadHead(g, d)| + 1
    ensures var e := AfterRecoverWrites(g, d, ReadHead(g, d), c);
      Recoverable(g, e) && SameHomes(g, Recover(g, d), Recover(g, e))
  {
    var lh := ReadHead(g, d);
    var e := AfterRecoverWrites(g, d, lh, c);
    if c <= |lh| {
      RecoverShapes(g, d, lh, c);
      RecoverAgain(g, d, lh, c, e);
    } else {
      HeadRoundTrip(g, AfterRecoverWrites(g, d, lh, |lh|), []);
      assert ReadHead(g, e) == [];
      RecoverWorks(g, e);
    }
  }

  lemma RecoverAgain(g: Geometry, d: Disk, lh: seq<nat>, c: nat, e: Disk)
    requires Recoverable(g, d) && lh == ReadHead(g, d) && RecoverShape(g, d, lh, c, e)
    ensures Recoverable(g, e) && SameHomes(g, Recover(g, d), Recover(g, e))
  {
    assert !IsHome(g, |d|, g.start);
    assert e[g.start] == d[g.start];
    assert ReadHead(g, e) == lh;
    RecoverWorks(g, d);
    RecoverWorks(g, e);
    forall i | 0 <= i < |lh| ensures LogBlock(g, d, i) == LogBlock(g, e, i) {
      assert !IsHome(g, |d|, g.start + 1 + i);
    }
    RecoveredAlike(g, d, e, lh, Recover(g, d), Recover(g, e));
  }

  /** e is left after a series of recoveries of d, each of which crashed after
      the given number of its writes. */
  ghost predicate CrashedRecoveries(g: Geometry, d: Disk, cuts: seq<nat>, e: Disk)
    decreases |cuts|
  {
    if cuts == [] then e == d
    else
      && Recoverable(g, d) && cuts[0] <= |ReadHead(g, d)| + 1
      && CrashedRecoveries(g, AfterRecoverWrites(g, d, ReadHead(g, d), cuts[0]), cuts[1..], e)
  }

  lemma {:induction false} RecoveriesAgree(g: Geometry, d: Disk, cuts: seq<nat>, e: Disk)
    requires Recoverable(g, d) && CrashedRecoveries(g, d, cuts, e)
    ensures Recoverable(g, e) && SameHomes(g, Recover(g, d), Recover(g, e))
    decreases |cuts|
  {
    if cuts != [] {
      RecoverCut(g, d, cuts[0]);
      RecoveriesAgree(g, AfterRecoverWrites(g, d, ReadHead(g, d), cuts[0]), cuts[1..], e);
    }
  }

  /** Crash atomicity.  Commit crashes after any w of its block writes, recovery
      crashes any number of times after any of its writes, and then completes:
      the homes are those from before the transaction, or those after all of it,
      and only whether the first header write was made decides which. */
  lemma CrashAtomicity(g: Geometry, d: Disk, cache: map<nat, Block>, lh: seq<nat>, w: nat, cuts: seq<nat>, e: Disk)
    requires Fits(g, |d|) && GoodList(g, |d|, lh) && (forall b :: b in lh ==> b in cache)
    requires d[g.start][0] == 0 && w <= CommitWrites(lh)
    requires CrashedRecoveries(g, AfterCommitWrites(g, d, cache, lh, w), cuts, e)
    ensures Recoverable(g, e)
    ensures if w <= |lh| then SameHomes(g, d, Recover(g, e)) else IsOverlay(g, d, cache, lh, Recover(g, e))
  {
    CommitCut(g, d, cache, lh, w);
    RecoveriesAgree(g, AfterCommitWrites(g, d, cache, lh, w), cuts, e);
  }
}
