/** Group commit over whole runs: operations begin, write and end in any
    interleaving, the last one to end commits, and the machine may crash at any
    block write of a commit or of a recovery. */
module GroupCommit {
  import opened Common
  import opened RedoLog

  /** A running file system call: how many blocks it has added to the log, and
      the block of a log_write that has passed its guard but not yet locked. */
  datatype Op = Op(id: nat, appended: nat, pending: Pending)
  datatype Pending = None | Passed(block: nat)

  datatype Write = Write(op: nat, block: nat, data: Block)

  /** Committing and Recovering count block writes done since the disk from. */
  datatype Phase = Idle | Committing(w: nat, from: Disk) | Recovering(w: nat, from: Disk)

  /** cache holds the pinned dirty buffers; every other buffer equals the disk.
      hist lists the log_writes so far, of which the first durable ones have been
      committed; a crash forgets the rest. */
  datatype Sys = Sys(
    disk: Disk, cache: map<nat, Block>, lh: seq<nat>, ops: seq<Op>, phase: Phase,
    nextop: nat, hist: seq<Write>, durable: nat, panicked: bool)

  datatype Step =
    | Begin
    | Guard(k: nat, block: nat)      // log_write's unlocked test, log.c:218
    | Append(k: nat, data: Block)    // log_write's locked part
    | End(k: nat)
    | DiskWrite                      // the next block write of commit or recovery
    | Crash

  function Remove<T>(s: seq<T>, k: nat): seq<T>
    requires k < |s|
  {
    s[..k] + s[k + 1..]
  }

  /** The homes after the writes h on top of d. */
  function Apply(d: Disk, h: seq<Write>): (r: Disk)
    ensures |r| == |d|
  {
    if h == [] then d
    else
      var w := h[|h| - 1];
      var e := Apply(d, h[..|h| - 1]);
      if w.block < |e| then e[w.block := w.data] else e
  }

  predicate LogFull(g: Geometry, lh: seq<nat>) {
    |lh| >= LOGSIZE || |lh| >= g.size - 1
  }

  /** Each operation adds at most MAXOPBLOCKS blocks to the log, and writes
      home blocks only. */
  predicate InBudget(g: Geometry, s: Sys, k: nat, block: nat)
    requires k < |s.ops|
  {
    IsHome(g, |s.disk|, block) && (block in s.lh || s.ops[k].appended < MAXOPBLOCKS)
  }

  /** The next write of a commit or recovery copies from a block to itself: bread
      waits for a buffer that its own caller has locked. */
  predicate Stuck(g: Geometry, s: Sys) {
    var n := |s.lh|;
    match s.phase
    case Idle => false
    case Committing(w, _) =>
      (w < n && s.lh[w] == g.start + 1 + w) || (n < w <= 2 * n && s.lh[w - n - 1] == g.start + w - n)
    case Recovering(w, _) => w < n && s.lh[w] == g.start + 1 + w
  }

  /** There is a next write of a commit or recovery.  Sane makes this so whenever
      one is under way. */
  predicate Writable(g: Geometry, s: Sys) {
    && Fits(g, |s.disk|) && HomeList(g, |s.disk|, s.lh)
    && match s.phase
       case Idle => false
       case Committing(w, _) =>
         (forall b :: b in s.lh ==> b in s.cache) && (w > |s.lh| ==> OnDisk(g, |s.disk|, s.lh))
       case Recovering(_, _) => OnDisk(g, |s.disk|, s.lh)
  }

  predicate Enabled(g: Geometry, s: Sys, a: Step) {
    !s.panicked &&
    match a
    case Begin => s.phase.Idle? && |s.lh| + (|s.ops| + 1) * MAXOPBLOCKS <= LOGSIZE
    case Guard(k, b) => k < |s.ops| && s.ops[k].pending.None? && InBudget(g, s, k, b)
    case Append(k, _) => k < |s.ops| && s.ops[k].pending.Passed?
    case End(k) => k < |s.ops| && s.ops[k].pending.None?
    case DiskWrite => Writable(g, s) && !Stuck(g, s)
    case Crash => Fits(g, |s.disk|) && s.disk[g.start][0] <= LOGSIZE && s.durable <= |s.hist|
  }

  /** Turn w of write_log.  The logged blocks are pinned in the cache, so bread of
      a log block panics when there are as many of them as buffers, and behind
      the end of the disk.  Behind the log area it finds a home block, whose
      buffer may be one of the pinned ones. */
  function LogCopy(g: Geometry, s: Sys, w: nat, from: Disk): Sys
    requires Writable(g, s) && s.phase == Committing(w, from) && w < |s.lh|
  {
    var to, data := g.start + 1 + w, s.cache[s.lh[w]];
    if |s.lh| >= g.nbuf || to >= |s.disk| then s.(panicked := true)
    else
      s.(disk := s.disk[to := data], cache := if to in s.cache then s.cache[to := data] else s.cache,
         phase := Committing(w + 1, from))
  }

  /** Block write number w of commit(). */
  function CommitStep(g: Geometry, s: Sys, w: nat, from: Disk): Sys
    requires Writable(g, s) && s.phase == Committing(w, from)
  {
    var n := |s.lh|;
    if w < n then LogCopy(g, s, w, from)
    else if w == n then
      s.(disk := WriteHead(g, s.disk, s.lh), durable := |s.hist|, phase := Committing(w + 1, from))
    else if w <= 2 * n then
      s.(disk := s.disk[s.lh[w - n - 1] := LogBlock(g, s.disk, w - n - 1)], phase := Committing(w + 1, from))
    else s.(disk := WriteHead(g, s.disk, []), lh := [], cache := map[], phase := Idle)
  }

  function RecoverStep(g: Geometry, s: Sys, w: nat, from: Disk): Sys
    requires Writable(g, s) && s.phase == Recovering(w, from)
  {
    var s' := s.(disk := RecoverWrite(g, s.disk, s.lh, w));
    if w < |s.lh| then s'.(phase := Recovering(w + 1, from)) else s'.(lh := [], phase := Idle)
  }

  function Next(g: Geometry, s: Sys, a: Step): Sys
    requires Enabled(g, s, a)
  {
    match a
    case Begin => s.(ops := s.ops + [Op(s.nextop, 0, None)], nextop := s.nextop + 1)
    case Guard(k, b) =>
      if LogFull(g, s.lh) then s.(panicked := true)
      else s.(ops := s.ops[k := s.ops[k].(pending := Passed(b))])
    case Append(k, data) =>
      var op := s.ops[k];
      var b := op.pending.block;
      var absorbed := b in s.lh;
      s.(lh := if absorbed then s.lh else s.lh + [b],
         cache := s.cache[b := data],
         ops := s.ops[k := op.(pending := None, appended := if absorbed then op.appended else op.appended + 1)],
         hist := s.hist + [Write(op.id, b, data)])
    case End(k) =>
      // "log.committing" would be raised here if a commit were in progress
      if !s.phase.Idle? then s.(panicked := true)
      else
        var rest := Remove(s.ops, k);
        s.(ops := rest, phase := if rest == [] && s.lh != [] then Committing(0, s.disk) else Idle)
    case DiskWrite =>
      (match s.phase
       case Committing(w, from) => CommitStep(g, s, w, from)
       case Recovering(w, from) => RecoverStep(g, s, w, from))
    case Crash =>
      s.(cache := map[], lh := ReadHead(g, s.disk), ops := [], phase := Recovering(0, s.disk),
         hist := s.hist[..s.durable])
  }

  function Start(d: Disk): Sys {
    Sys(d, map[], [], [], Idle, 0, [], 0, false)
  }

  ghost predicate Run(g: Geometry, s: Sys, steps: seq<Step>, s': Sys)
    decreases |steps|
  {
    if steps == [] then s == s' else Enabled(g, s, steps[0]) && Run(g, Next(g, s, steps[0]), steps[1..], s')
  }

  // ---- the invariant ------------------------------------------------------

  /** What the reserved but unused budgets of the running operations add up to. */
  function Reserved(ops: seq<Op>): int {
    if ops == [] then 0 else Reserved(ops[..|ops| - 1]) + MAXOPBLOCKS - ops[|ops| - 1].appended
  }

  ghost predicate OpsOk(s: Sys) {
    && (forall k :: 0 <= k < |s.ops| ==> s.ops[k].appended <= MAXOPBLOCKS && s.ops[k].id < s.nextop)
    && |s.lh| + Reserved(s.ops) <= LOGSIZE
    && (s.ops != [] ==> s.phase.Idle?)
  }

  predicate PendingOk(g: Geometry, s: Sys, k: nat) {
    k < |s.ops| && s.ops[k].pending.Passed? ==> InBudget(g, s, k, s.ops[k].pending.block)
  }

  /** Commits hold whole operations: nothing of a running operation is durable,
      and no operation has writes on both sides of the durable prefix. */
  ghost predicate WholeOps(s: Sys) {
    && s.durable <= |s.hist|
    && (forall i :: 0 <= i < |s.hist| ==> s.hist[i].op < s.nextop)
    && (forall i, k :: 0 <= i < s.durable && 0 <= k < |s.ops| ==> s.hist[i].op != s.ops[k].id)
    && (forall i, j :: 0 <= i < s.durable <= j < |s.hist| ==> s.hist[i].op != s.hist[j].op)
  }

  ghost predicate CacheIsLog(s: Sys) {
    forall b :: b in s.cache <==> b in s.lh
  }

  /** How far a commit or a recovery has come. */
  ghost predicate StageOk(g: Geometry, s: Sys)
    requires Readable(g, s.disk)
  {
    match s.phase
    case Idle => CacheIsLog(s)
    case Committing(w, _) =>
      && s.lh != [] && w < CommitWrites(s.lh) && CacheIsLog(s)
      && g.start + 1 + (if w < |s.lh| then w else |s.lh|) <= |s.disk|
      && (w > |s.lh| ==> s.durable == |s.hist|)
    case Recovering(w, _) =>
      w <= |s.lh| && s.lh == ReadHead(g, s.disk) && s.cache == map[] && s.durable == |s.hist|
  }

  /** What every step keeps, whatever the size of the log and wherever commit
      writes. */
  ghost predicate Sane(g: Geometry, n: nat, s: Sys) {
    && Fits(g, n) && |s.disk| == n && HomeList(g, n, s.lh) && Readable(g, s.disk)
    && OpsOk(s) && (forall k :: PendingOk(g, s, k)) && WholeOps(s) && StageOk(g, s)
  }

  /** The buffers, pinned or as on the disk d, show hist. */
  ghost predicate ShowsAll(g: Geometry, d0: Disk, s: Sys, d: Disk) {
    && |d| == |d0|
    && forall b: nat :: IsHome(g, |d0|, b) ==> Apply(d0, s.hist)[b] == if b in s.cache then s.cache[b] else d[b]
  }

  ghost predicate HomesAre(g: Geometry, d0: Disk, d: Disk, h: seq<Write>) {
    |d| == |d0| && forall b: nat :: IsHome(g, |d0|, b) ==> d[b] == Apply(d0, h)[b]
  }

  /** The header is empty and the homes are as the last commit left them. */
  ghost predicate AtRest(g: Geometry, d0: Disk, s: Sys) {
    && Fits(g, |s.disk|) && s.disk[g.start][0] == 0 && ShowsAll(g, d0, s, s.disk)
    && s.durable <= |s.hist| && HomesAre(g, d0, s.disk, s.hist[..s.durable])
  }

  /** A commit of blocks that fit the log. */
  ghost predicate CommitOk(g: Geometry, d0: Disk, s: Sys, w: nat, from: Disk) {
    && |from| == |d0| && Fits(g, |from|) && from[g.start][0] == 0 && ShowsAll(g, d0, s, from)
    && GoodList(g, |d0|, s.lh) && CacheIsLog(s)
    && s.disk == AfterCommitWrites(g, from, s.cache, s.lh, w)
    && s.durable <= |s.hist| && (w <= |s.lh| ==> HomesAre(g, d0, from, s.hist[..s.durable]))
  }

  ghost predicate RecoverOk(g: Geometry, d0: Disk, s: Sys, w: nat, from: Disk) {
    && |from| == |d0| && Recoverable(g, from) && s.lh == ReadHead(g, from) && w <= |s.lh|
    && s.disk == AfterRecoverWrites(g, from, s.lh, w) && HomesAre(g, d0, Recover(g, from), s.hist)
  }

  /** A commit of more blocks than that is safe as long as it writes in the log. */
  ghost predicate PhaseOk(g: Geometry, d0: Disk, s: Sys) {
    match s.phase
    case Idle => AtRest(g, d0, s)
    case Committing(w, from) =>
      if |s.lh| <= g.size - 1 then CommitOk(g, d0, s, w, from) else w <= g.size - 1 && AtRest(g, d0, s)
    case Recovering(w, from) => RecoverOk(g, d0, s, w, from)
  }

  ghost predicate Inv(g: Geometry, d0: Disk, s: Sys) {
    Sane(g, |d0|, s) && PhaseOk(g, d0, s)
  }

  // ---- histories and budgets ----------------------------------------------

  lemma ApplyLast(d: Disk, h: seq<Write>, w: Write)
    requires w.block < |d|
    ensures Apply(d, h + [w]) == Apply(d, h)[w.block := w.data]
  {
    assert (h + [w])[..|h|] == h;
  }

  lemma {:induction false} ReservedUpdate(ops: seq<Op>, k: nat, op: Op)
    requires k < |ops|
    ensures Reserved(ops[k := op]) == Reserved(ops) + ops[k].appended - op.appended
  {
    var n := |ops| - 1;
    if k < n {
      ReservedUpdate(ops[..n], k, op);
      assert ops[k := op][..n] == ops[..n][k := op];
    } else {
      assert ops[k := op][..n] == ops[..n];
    }
  }

  lemma {:induction false} ReservedRemove(ops: seq<Op>, k: nat)
    requires k < |ops| && ops[k].appended <= MAXOPBLOCKS
    ensures Reserved(Remove(ops, k)) <= Reserved(ops)
  {
    var n := |ops| - 1;
    if k < n {
      ReservedRemove(ops[..n], k);
      assert Remove(ops, k)[..n - 1] == Remove(ops[..n], k);
    } else {
      assert Remove(ops, k) == ops[..n];
    }
  }

  /** The unused budget lies between nothing and MAXOPBLOCKS an operation. */
  lemma {:induction false} ReservedBounds(ops: seq<Op>)
    requires forall k :: 0 <= k < |ops| ==> ops[k].appended <= MAXOPBLOCKS
    ensures 0 <= Reserved(ops) <= |ops| * MAXOPBLOCKS
    ensures forall k :: 0 <= k < |ops| ==> MAXOPBLOCKS - ops[k].appended <= Reserved(ops)
  {
    if ops != [] {
      ReservedBounds(ops[..|ops| - 1]);
      assert forall k :: 0 <= k < |ops| - 1 ==> ops[..|ops| - 1][k] == ops[k];
    }
  }

  // ---- what every step keeps ----------------------------------------------

  lemma BeginOps(g: Geometry, s: Sys)
    requires OpsOk(s) && WholeOps(s) && Enabled(g, s, Begin)
    ensures OpsOk(Next(g, s, Begin)) && WholeOps(Next(g, s, Begin))
  {
    ReservedBounds(s.ops);
    assert Next(g, s, Begin).ops[..|s.ops|] == s.ops;
  }

  lemma SaneBegin(g: Geometry, n: nat, s: Sys)
    requires Sane(g, n, s) && Enabled(g, s, Begin)
    ensures Sane(g, n, Next(g, s, Begin))
  {
    BeginOps(g, s);
    forall k: nat ensures PendingOk(g, Next(g, s, Begin), k) {
      assert PendingOk(g, s, k);
    }
  }

  lemma SaneGuard(g: Geometry, n: nat, s: Sys, k: nat, b: nat)
    requires Sane(g, n, s) && Enabled(g, s, Guard(k, b))
    ensures Sane(g, n, Next(g, s, Guard(k, b)))
  {
    var s' := Next(g, s, Guard(k, b));
    if !LogFull(g, s.lh) {
      ReservedUpdate(s.ops, k, s'.ops[k]);
      forall j: nat ensures PendingOk(g, s', j) {
        assert PendingOk(g, s, j);
      }
    } else {
      assert forall j :: PendingOk(g, s', j) == PendingOk(g, s, j);
    }
  }

  lemma AppendOps(g: Geometry, n: nat, s: Sys, k: nat, data: Block)
    requires Sane(g, n, s) && Enabled(g, s, Append(k, data))
    ensures OpsOk(Next(g, s, Append(k, data))) && HomeList(g, n, Next(g, s, Append(k, data)).lh)
  {
    var s' := Next(g, s, Append(k, data));
    assert PendingOk(g, s, k);
    ReservedUpdate(s.ops, k, s'.ops[k]);
    ReservedBounds(s'.ops);
  }

  lemma AppendWhole(g: Geometry, s: Sys, k: nat, data: Block)
    requires OpsOk(s) && WholeOps(s) && Enabled(g, s, Append(k, data))
    ensures WholeOps(Next(g, s, Append(k, data)))
  {
  }

  lemma SaneAppend(g: Geometry, n: nat, s: Sys, k: nat, data: Block)
    requires Sane(g, n, s) && Enabled(g, s, Append(k, data))
    ensures Sane(g, n, Next(g, s, Append(k, data)))
  {
    AppendOps(g, n, s, k, data);
    AppendWhole(g, s, k, data);
    forall j: nat ensures PendingOk(g, Next(g, s, Append(k, data)), j) {
      assert PendingOk(g, s, j);
    }
  }

  lemma RemoveAt<T>(s: seq<T>, k: nat)
    requires k < |s|
    ensures forall j :: 0 <= j < |s| - 1 ==> Remove(s, k)[j] == s[if j < k then j else j + 1]
  {
  }

  lemma EndOps(g: Geometry, s: Sys, k: nat)
    requires k < |s.ops| && OpsOk(s) && WholeOps(s) && (forall j :: PendingOk(g, s, j)) && s.phase.Idle?
    ensures var s' := s.(ops := Remove(s.ops, k));
      OpsOk(s') && WholeOps(s') && forall j :: PendingOk(g, s', j)
  {
    var s' := s.(ops := Remove(s.ops, k));
    RemoveAt(s.ops, k);
    ReservedRemove(s.ops, k);
    forall j: nat ensures PendingOk(g, s', j) {
      assert PendingOk(g, s, j) && PendingOk(g, s, j + 1);
    }
  }

  lemma SaneEnd(g: Geometry, n: nat, s: Sys, k: nat)
    requires Sane(g, n, s) && Enabled(g, s, End(k))
    ensures Sane(g, n, Next(g, s, End(k))) && s.phase.Idle? && !Next(g, s, End(k)).panicked
  {
    EndOps(g, s, k);
    var s1, s' := s.(ops := Remove(s.ops, k)), Next(g, s, End(k));
    forall j: nat ensures PendingOk(g, s', j) {
      assert PendingOk(g, s1, j);
    }
  }

  /** A write to a block other than the header leaves the header alone. */
  lemma HeadStays(g: Geometry, d: Disk, b: nat, data: Block)
    requires Readable(g, d) && b < |d| && b != g.start
    ensures Readable(g, d[b := data]) && ReadHead(g, d[b := data]) == ReadHead(g, d)
  {
  }

  lemma HeadWritten(g: Geometry, d: Disk, lh: seq<nat>)
    requires Fits(g, |d|) && OnDisk(g, |d|, lh)
    ensures Readable(g, WriteHead(g, d, lh)) && ReadHead(g, WriteHead(g, d, lh)) == lh
  {
    HeadRoundTrip(g, d, lh);
  }

  lemma SaneCommit(g: Geometry, n: nat, s: Sys, w: nat, from: Disk)
    requires Sane(g, n, s) && Enabled(g, s, DiskWrite) && s.phase == Committing(w, from)
    ensures Readable(g, CommitStep(g, s, w, from).disk) && StageOk(g, CommitStep(g, s, w, from))
  {
    var m := |s.lh|;
    if w < m {
      if g.start + 1 + w < n {
        HeadStays(g, s.disk, g.start + 1 + w, s.cache[s.lh[w]]);
      }
    } else if w == m {
      HeadWritten(g, s.disk, s.lh);
    } else if w <= 2 * m {
      assert IsHome(g, n, s.lh[w - m - 1]);
      HeadStays(g, s.disk, s.lh[w - m - 1], LogBlock(g, s.disk, w - m - 1));
    } else {
      HeadWritten(g, s.disk, []);
    }
  }

  lemma SaneRecover(g: Geometry, n: nat, s: Sys, w: nat, from: Disk)
    requires Sane(g, n, s) && Enabled(g, s, DiskWrite) && s.phase == Recovering(w, from)
    ensures Readable(g, RecoverStep(g, s, w, from).disk) && StageOk(g, RecoverStep(g, s, w, from))
  {
    if w < |s.lh| {
      assert IsHome(g, n, s.lh[w]);
      HeadStays(g, s.disk, s.lh[w], LogBlock(g, s.disk, w));
    } else {
      HeadWritten(g, s.disk, []);
    }
  }

  lemma SaneWrite(g: Geometry, n: nat, s: Sys)
    requires Sane(g, n, s) && Enabled(g, s, DiskWrite)
    ensures Sane(g, n, Next(g, s, DiskWrite))
  {
    if s.phase.Committing? {
      SaneCommit(g, n, s, s.phase.w, s.phase.from);
    } else {
      SaneRecover(g, n, s, s.phase.w, s.phase.from);
    }
    forall j: nat ensures PendingOk(g, Next(g, s, DiskWrite), j) {
    }
  }

  lemma SaneCrash(g: Geometry, n: nat, s: Sys)
    requires Sane(g, n, s) && Enabled(g, s, Crash)
    ensures Sane(g, n, Next(g, s, Crash))
  {
    forall j: nat ensures PendingOk(g, Next(g, s, Crash), j) {
    }
  }

  lemma SaneStep(g: Geometry, n: nat, s: Sys, a: Step)
    requires Sane(g, n, s) && Enabled(g, s, a)
    ensures Sane(g, n, Next(g, s, a))
  {
    match a
    case Begin => SaneBegin(g, n, s);
    case Guard(k, b) => SaneGuard(g, n, s, k, b);
    case Append(k, data) => SaneAppend(g, n, s, k, data);
    case End(k) => SaneEnd(g, n, s, k);
    case DiskWrite => SaneWrite(g, n, s);
    case Crash => SaneCrash(g, n, s);
  }

  lemma {:induction false} SaneRun(g: Geometry, n: nat, s: Sys, steps: seq<Step>, s': Sys)
    requires Sane(g, n, s) && Run(g, s, steps, s')
    ensures Sane(g, n, s')
    decreases |steps|
  {
    if steps != [] {
      SaneStep(g, n, s, steps[0]);
      SaneRun(g, n, Next(g, s, steps[0]), steps[1..], s');
    }
  }

  // ---- what every step keeps that writes in the log -----------------------

  /** The next write of commit is to a block behind the log area. */
  predicate Clobbers(g: Geometry, s: Sys, a: Step) {
    && a.DiskWrite? && s.phase.Committing? && g.size - 1 <= s.phase.w < |s.lh|
    && |s.lh| < g.nbuf && g.start + 1 + s.phase.w < |s.disk|
  }

  ghost predicate Clean(g: Geometry, s: Sys, steps: seq<Step>)
    decreases |steps|
  {
    steps != [] ==>
      !Clobbers(g, s, steps[0]) && (Enabled(g, s, steps[0]) ==> Clean(g, Next(g, s, steps[0]), steps[1..]))
  }

  /** The phase does not depend on the running operations. */
  lemma PhaseSame(g: Geometry, d0: Disk, s: Sys, s': Sys)
    requires PhaseOk(g, d0, s) && s' == s.(ops := s'.ops, nextop := s'.nextop, panicked := s'.panicked)
    ensures PhaseOk(g, d0, s')
  {
  }

  /** What the log and the cache show after log_write. */
  lemma AppendShows(g: Geometry, d0: Disk, s: Sys, k: nat, data: Block)
    requires ShowsAll(g, d0, s, s.disk) && Enabled(g, s, Append(k, data)) && PendingOk(g, s, k)
    ensures ShowsAll(g, d0, Next(g, s, Append(k, data)), s.disk)
  {
    ApplyLast(d0, s.hist, Write(s.ops[k].id, s.ops[k].pending.block, data));
  }

  lemma AppendPhase(g: Geometry, d0: Disk, s: Sys, k: nat, data: Block)
    requires Inv(g, d0, s) && Enabled(g, s, Append(k, data))
    ensures PhaseOk(g, d0, Next(g, s, Append(k, data)))
  {
    assert PendingOk(g, s, k);
    AppendShows(g, d0, s, k, data);
    assert Next(g, s, Append(k, data)).hist[..s.durable] == s.hist[..s.durable];
  }

  lemma EndPhase(g: Geometry, d0: Disk, s: Sys, k: nat)
    requires Inv(g, d0, s) && Enabled(g, s, End(k))
    ensures PhaseOk(g, d0, Next(g, s, End(k)))
  {
  }

  /** Write number w of a commit whose blocks fit the log, and what becomes of the
      rest of the state. */
  ghost predicate CommitWrote(g: Geometry, s: Sys, s': Sys, w: nat, from: Disk)
    requires Fits(g, |s.disk|) && GoodList(g, |s.disk|, s.lh) && CacheIsLog(s)
  {
    && s'.disk == CommitWrite(g, s.disk, s.cache, s.lh, w) && s'.hist == s.hist
    && s'.durable == (if w == |s.lh| then |s.hist| else s.durable)
    && if w + 1 == CommitWrites(s.lh) then s'.phase == Idle && s'.cache == map[]
       else s'.phase == Committing(w + 1, from) && s'.lh == s.lh && s'.cache == s.cache
  }

  /** A commit of blocks that fit writes what CommitWrite says, or panics. */
  lemma CommitStepIs(g: Geometry, s: Sys, w: nat, from: Disk)
    requires Writable(g, s) && s.phase == Committing(w, from) && w < CommitWrites(s.lh)
    requires GoodList(g, |s.disk|, s.lh) && CacheIsLog(s)
    ensures var s' := CommitStep(g, s, w, from);
      s' == s.(panicked := true) || CommitWrote(g, s, s', w, from)
  {
    assert w < |s.lh| ==> !IsHome(g, |s.disk|, g.start + 1 + w);
  }

  /** The last write of commit leaves all of hist at home and the log empty. */
  lemma CommitDone(g: Geometry, d0: Disk, s: Sys, from: Disk)
    requires CommitOk(g, d0, s, CommitWrites(s.lh) - 1, from)
    ensures var e := CommitWrite(g, s.disk, s.cache, s.lh, CommitWrites(s.lh) - 1);
      e[g.start][0] == 0 && HomesAre(g, d0, e, s.hist)
  {
    var n := CommitWrites(s.lh);
    var e := AfterCommitWrites(g, from, s.cache, s.lh, n);
    CommitShapes(g, from, s.cache, s.lh, n, e);
    forall b: nat | IsHome(g, |d0|, b) ensures e[b] == Apply(d0, s.hist)[b] {
      assert RestAt(g, from, s.lh, e, b);
      if b in s.lh {
        var i :| 0 <= i < |s.lh| && s.lh[i] == b;
        assert HomeAt(from, s.cache, s.lh, n, e, i);
      }
    }
  }

  lemma ShowsKept(g: Geometry, d0: Disk, s: Sys, s': Sys, from: Disk)
    requires ShowsAll(g, d0, s, from) && s'.cache == s.cache && s'.hist == s.hist
    ensures ShowsAll(g, d0, s', from)
  {
  }

  lemma CommitPhase(g: Geometry, d0: Disk, s: Sys, w: nat, from: Disk)
    requires CommitOk(g, d0, s, w, from) && Enabled(g, s, DiskWrite) && s.phase == Committing(w, from)
    requires w < CommitWrites(s.lh) && (w > |s.lh| ==> s.durable == |s.hist|)
    ensures PhaseOk(g, d0, Next(g, s, DiskWrite))
  {
    var s' := Next(g, s, DiskWrite);
    CommitStepIs(g, s, w, from);
    if s' == s.(panicked := true) {
      PhaseSame(g, d0, s, s');
    } else {
      CommitGoesOn(g, d0, s, s', w, from);
    }
  }

  lemma CommitGoesOn(g: Geometry, d0: Disk, s: Sys, s': Sys, w: nat, from: Disk)
    requires CommitOk(g, d0, s, w, from) && CommitWrote(g, s, s', w, from)
    requires w < CommitWrites(s.lh) && (w > |s.lh| ==> s.durable == |s.hist|)
    ensures PhaseOk(g, d0, s')
  {
    if w + 1 == CommitWrites(s.lh) {
      CommitEnds(g, d0, s, s', from);
    } else {
      CommitStays(g, d0, s, s', w, from);
    }
  }

  lemma CommitStays(g: Geometry, d0: Disk, s: Sys, s': Sys, w: nat, from: Disk)
    requires CommitOk(g, d0, s, w, from) && s'.lh == s.lh && s'.cache == s.cache && s'.hist == s.hist
    requires s'.disk == CommitWrite(g, s.disk, s.cache, s.lh, w)
    requires s'.durable <= |s.hist| && (w < |s.lh| ==> s'.durable == s.durable)
    ensures CommitOk(g, d0, s', w + 1, from)
  {
    ShowsKept(g, d0, s, s', from);
    assert s'.disk == AfterCommitWrites(g, from, s'.cache, s'.lh, w + 1);
  }

  lemma CommitEnds(g: Geometry, d0: Disk, s: Sys, s': Sys, from: Disk)
    requires CommitOk(g, d0, s, CommitWrites(s.lh) - 1, from)
    requires s'.disk == CommitWrite(g, s.disk, s.cache, s.lh, CommitWrites(s.lh) - 1)
    requires s'.cache == map[] && s'.hist == s.hist && s'.durable == |s.hist|
    ensures AtRest(g, d0, s')
  {
    CommitDone(g, d0, s, from);
    assert s.hist[..|s.hist|] == s.hist;
  }

  /** A commit of too many blocks, up to the end of the log area. */
  lemma OverrunPhase(g: Geometry, d0: Disk, s: Sys, w: nat, from: Disk)
    requires Inv(g, d0, s) && Enabled(g, s, DiskWrite) && s.phase == Committing(w, from) && |s.lh| > g.size - 1
    requires !Clobbers(g, s, DiskWrite)
    ensures PhaseOk(g, d0, Next(g, s, DiskWrite))
  {
    var s' := Next(g, s, DiskWrite);
    if s'.panicked {
      PhaseSame(g, d0, s, s');
    } else {
      assert !IsHome(g, |d0|, g.start + 1 + w);
      assert g.start + 1 + w !in s.cache;
      ShowsKept(g, d0, s, s', s.disk);
    }
  }

  lemma RecoverPhase(g: Geometry, d0: Disk, s: Sys, w: nat, from: Disk)
    requires Inv(g, d0, s) && Enabled(g, s, DiskWrite) && s.phase == Recovering(w, from)
    ensures PhaseOk(g, d0, Next(g, s, DiskWrite))
  {
    if w == |s.lh| {
      assert Next(g, s, DiskWrite).disk == Recover(g, from);
      HeadRoundTrip(g, s.disk, []);
      assert s.hist[..|s.hist|] == s.hist;
    }
  }

  /** Recovery of a disk with an empty header changes no home. */
  lemma NothingToRecover(g: Geometry, d: Disk)
    requires Fits(g, |d|) && d[g.start][0] == 0
    ensures Recoverable(g, d) && |Recover(g, d)| == |d| && SameHomes(g, d, Recover(g, d))
  {
    assert ReadHead(g, d) == [];
    RecoverWorks(g, d);
  }

  /** The homes a complete recovery of the present disk would leave. */
  lemma CrashView(g: Geometry, d0: Disk, s: Sys)
    requires Inv(g, d0, s)
    ensures Recoverable(g, s.disk) && HomesAre(g, d0, Recover(g, s.disk), s.hist[..s.durable])
  {
    assert s.hist[..|s.hist|] == s.hist;
    match s.phase
    case Idle => NothingToRecover(g, s.disk);
    case Committing(w, from) =>
      if |s.lh| <= g.size - 1 {
        CommitCut(g, from, s.cache, s.lh, w);
      } else {
        NothingToRecover(g, s.disk);
      }
    case Recovering(w, from) => RecoverCut(g, from, w);
  }

  lemma CrashPhase(g: Geometry, d0: Disk, s: Sys)
    requires Inv(g, d0, s) && Enabled(g, s, Crash)
    ensures PhaseOk(g, d0, Next(g, s, Crash))
  {
    CrashView(g, d0, s);
  }

  lemma KeepStep(g: Geometry, d0: Disk, s: Sys, a: Step)
    requires Inv(g, d0, s) && Enabled(g, s, a) && !Clobbers(g, s, a)
    ensures Inv(g, d0, Next(g, s, a))
  {
    SaneStep(g, |d0|, s, a);
    match a
    case Begin => PhaseSame(g, d0, s, Next(g, s, a));
    case Guard(k, b) => PhaseSame(g, d0, s, Next(g, s, a));
    case Append(k, data) => AppendPhase(g, d0, s, k, data);
    case End(k) => EndPhase(g, d0, s, k);
    case Crash => CrashPhase(g, d0, s);
    case DiskWrite =>
      if s.phase.Recovering? {
        RecoverPhase(g, d0, s, s.phase.w, s.phase.from);
      } else if |s.lh| <= g.size - 1 {
        CommitPhase(g, d0, s, s.phase.w, s.phase.from);
      } else {
        OverrunPhase(g, d0, s, s.phase.w, s.phase.from);
      }
  }

  lemma {:induction false} KeepRun(g: Geometry, d0: Disk, s: Sys, steps: seq<Step>, s': Sys)
    requires Inv(g, d0, s) && Run(g, s, steps, s') && Clean(g, s, steps)
    ensures Inv(g, d0, s')
    decreases |steps|
  {
    if steps != [] {
      KeepStep(g, d0, s, steps[0]);
      KeepRun(g, d0, Next(g, s, steps[0]), steps[1..], s');
    }
  }

  // ---- the theorems -------------------------------------------------------

  /** A freshly made or recovered disk, whatever the size of its log. */
  predicate Formatted(g: Geometry, d0: Disk) {
    Fits(g, |d0|) && d0[g.start][0] == 0
  }

  lemma StartInv(g: Geometry, d0: Disk)
    requires Formatted(g, d0)
    ensures Inv(g, d0, Start(d0))
  {
    assert ReadHead(g, d0) == [];
    assert forall k: nat :: PendingOk(g, Start(d0), k);
  }

  /** Recovering the disk as it is now gives the homes after the durable prefix of
      the log_writes. */
  ghost predicate Consistent(g: Geometry, d0: Disk, s: Sys) {
    && Readable(g, s.disk) && s.durable <= |s.hist|
    && HomesAre(g, d0, Recover(g, s.disk), s.hist[..s.durable])
  }

  /** Crash consistency, for a log of any size.  In every state of every run in
      which commit writes in the log area only, with crashes anywhere, recovery
      gives the homes after the durable prefix. */
  lemma CrashConsistency(g: Geometry, d0: Disk, steps: seq<Step>, s: Sys)
    requires Formatted(g, d0) && Run(g, Start(d0), steps, s) && Clean(g, Start(d0), steps)
    ensures Consistent(g, d0, s)
  {
    StartInv(g, d0);
    KeepRun(g, d0, Start(d0), steps, s);
    CrashView(g, d0, s);
  }

  /** The exact condition: the first write behind the log area leaves the disk
      consistent if and only if it writes what is there. */
  lemma ClobberExactly(g: Geometry, d0: Disk, steps: seq<Step>, s: Sys)
    requires Formatted(g, d0) && Run(g, Start(d0), steps, s) && Clean(g, Start(d0), steps)
    requires Enabled(g, s, DiskWrite) && Clobbers(g, s, DiskWrite)
    ensures Consistent(g, d0, Next(g, s, DiskWrite)) <==>
      s.cache[s.lh[s.phase.w]] == s.disk[g.start + 1 + s.phase.w]
  {
    assert Inv(g, d0, s) by {
      StartInv(g, d0);
      KeepRun(g, d0, Start(d0), steps, s);
    }
    Clobbered(g, d0, s, s.phase.w, s.phase.from);
  }

  lemma Clobbered(g: Geometry, d0: Disk, s: Sys, w: nat, from: Disk)
    requires Inv(g, d0, s) && Enabled(g, s, DiskWrite) && Clobbers(g, s, DiskWrite) && s.phase == Committing(w, from)
    ensures Consistent(g, d0, Next(g, s, DiskWrite)) <==> s.cache[s.lh[w]] == s.disk[g.start + 1 + w]
  {
    var e := Next(g, s, DiskWrite).disk;
    NothingToRecover(g, e);
    assert IsHome(g, |d0|, g.start + 1 + w);
    forall b: nat | IsHome(g, |d0|, b) && b != g.start + 1 + w
      ensures Recover(g, e)[b] == Apply(d0, s.hist[..s.durable])[b]
    {
    }
    assert Recover(g, e)[g.start + 1 + w] == s.cache[s.lh[w]];
  }

  /** What is durable consists of whole operations, all ended, in every state of
      every run, whatever the size of the log. */
  lemma WholeOperations(g: Geometry, d0: Disk, steps: seq<Step>, s: Sys)
    requires Formatted(g, d0) && Run(g, Start(d0), steps, s)
    ensures s.durable <= |s.hist|
    ensures forall i, k :: 0 <= i < s.durable && 0 <= k < |s.ops| ==> s.hist[i].op != s.ops[k].id
    ensures forall i, j :: 0 <= i < s.durable <= j < |s.hist| ==> s.hist[i].op != s.hist[j].op
  {
    StartInv(g, d0);
    SaneRun(g, |d0|, Start(d0), steps, s);
  }

  /** What is durable stays: the durable writes of s are a prefix of those of s'. */
  predicate StaysDurable(s: Sys, s': Sys) {
    s.durable <= |s.hist| && s'.durable <= |s'.hist| && s.hist[..s.durable] <= s'.hist[..s'.durable]
  }

  /** With an empty log and nothing to write, everything is durable. */
  predicate Flushed(s: Sys) {
    s.phase.Idle? && s.lh == [] ==> s.durable == |s.hist|
  }

  /** No step takes anything back, and only the header write of a commit makes
      writes durable, all of them at once. */
  lemma DurableStep(g: Geometry, n: nat, s: Sys, a: Step)
    requires Sane(g, n, s) && Flushed(s) && Enabled(g, s, a)
    ensures StaysDurable(s, Next(g, s, a)) && Flushed(Next(g, s, a))
    ensures Next(g, s, a).durable != s.durable ==>
      a == DiskWrite && s.phase.Committing? && s.phase.w == |s.lh| && Next(g, s, a).durable == |s.hist|
  {
    assert Next(g, s, a).hist[..s.durable] == s.hist[..s.durable];
  }

  lemma {:induction false} DurableRun(g: Geometry, n: nat, s: Sys, steps: seq<Step>, s': Sys)
    requires Sane(g, n, s) && Flushed(s) && Run(g, s, steps, s')
    ensures StaysDurable(s, s') && Flushed(s')
    decreases |steps|
  {
    if steps != [] {
      DurableStep(g, n, s, steps[0]);
      SaneStep(g, n, s, steps[0]);
      DurableRun(g, n, Next(g, s, steps[0]), steps[1..], s');
    }
  }

  /** Durability, for a log of any size.  What is durable in some state of a run is
      durable in every later state, through any crashes; and once the last
      operation out has committed, that is all log_writes so far. */
  lemma Durability(g: Geometry, d0: Disk, steps: seq<Step>, s: Sys, later: seq<Step>, s': Sys)
    requires Formatted(g, d0) && Run(g, Start(d0), steps, s) && Run(g, s, later, s')
    ensures s.durable <= |s.hist| && s'.durable <= |s'.hist| && s.hist[..s.durable] <= s'.hist[..s'.durable]
    ensures s.phase.Idle? && s.lh == [] ==> s.hist <= s'.hist[..s'.durable]
  {
    StartInv(g, d0);
    SaneRun(g, |d0|, Start(d0), steps, s);
    DurableRun(g, |d0|, Start(d0), steps, s);
    DurableRun(g, |d0|, s, later, s');
    assert s.phase.Idle? && s.lh == [] ==> s.hist[..s.durable] == s.hist;
  }

  /** In every run, whatever the size of the log: while a commit or a recovery runs
      no operation is outstanding, so end_op never panics; logged block numbers
      are distinct homes; and a commit or recovery can go on unless it waits for
      itself. */
  lemma GroupCommitSafe(g: Geometry, d0: Disk, steps: seq<Step>, s: Sys)
    requires Formatted(g, d0) && Run(g, Start(d0), steps, s)
    ensures !s.phase.Idle? ==> s.ops == []
    ensures forall k: nat :: Enabled(g, s, End(k)) ==> !Next(g, s, End(k)).panicked
    ensures HomeList(g, |d0|, s.lh) && |s.disk| == |d0|
    ensures !s.panicked ==> Enabled(g, s, Crash) && (!s.phase.Idle? ==> Enabled(g, s, DiskWrite) || Stuck(g, s))
  {
    StartInv(g, d0);
    SaneRun(g, |d0|, Start(d0), steps, s);
    forall k: nat | Enabled(g, s, End(k)) ensures !Next(g, s, End(k)).panicked {
      SaneEnd(g, |d0|, s, k);
    }
  }

  /** Every log_write counts: the append records the write, logs its block once and
      pins the new contents, whether the block was logged before or not. */
  lemma AppendRecords(g: Geometry, s: Sys, k: nat, data: Block)
    requires Enabled(g, s, Append(k, data))
    ensures var s', b := Next(g, s, Append(k, data)), s.ops[k].pending.block;
      && s'.hist == s.hist + [Write(s.ops[k].id, b, data)] && !s'.panicked && s'.disk == s.disk
      && b in s'.lh && s'.lh == (if b in s.lh then s.lh else s.lh + [b])
      && b in s'.cache && s'.cache[b] == data
      && (forall c :: c != b ==> (c in s'.cache <==> c in s.cache) && (c in s.cache ==> s'.cache[c] == s.cache[c]))
      && |s'.ops| == |s.ops| && s'.ops[k].pending.None? && s'.ops[k].id == s.ops[k].id
  {
  }

  /** The log_writes of a run, less those that crashes have undone. */
  ghost function Performed(g: Geometry, s: Sys, steps: seq<Step>, done: seq<Write>): seq<Write>
    decreases |steps|
  {
    if steps == [] || !Enabled(g, s, steps[0]) then done
    else
      var a := steps[0];
      Performed(g, Next(g, s, a), steps[1..],
                if a.Append? then done + [Write(s.ops[a.k].id, s.ops[a.k].pending.block, a.data)]
                else if a.Crash? && s.durable <= |done| then done[..s.durable]
                else done)
  }

  lemma {:induction false} HistRun(g: Geometry, s: Sys, steps: seq<Step>, s': Sys)
    requires Run(g, s, steps, s')
    ensures s'.hist == Performed(g, s, steps, s.hist)
    decreases |steps|
  {
    if steps != [] {
      HistRun(g, Next(g, s, steps[0]), steps[1..], s');
    }
  }

  /** The history that the theorems speak of is that of the run: in every state it
      lists the log_writes made so far, in order, with what each one wrote, less those
      that came after the durable prefix when the machine crashed. */
  lemma HistoryIsRun(g: Geometry, d0: Disk, steps: seq<Step>, s: Sys)
    requires Run(g, Start(d0), steps, s)
    ensures s.hist == Performed(g, Start(d0), steps, [])
  {
    HistRun(g, Start(d0), steps, s);
  }

  /** No operation is stuck: in every run one that has passed the guard can append,
      one that has not can end; a new one is admitted exactly if no commit is on and
      its budget fits beside those of the running ones and what is logged; and when
      none is running and no commit is on, that is so. */
  lemma OperationsGoOn(g: Geometry, d0: Disk, steps: seq<Step>, s: Sys, k: nat, data: Block)
    requires Formatted(g, d0) && Run(g, Start(d0), steps, s) && !s.panicked
    ensures k < |s.ops| ==> if s.ops[k].pending.Passed? then Enabled(g, s, Append(k, data)) else Enabled(g, s, End(k))
    ensures Enabled(g, s, Begin) <==> s.phase.Idle? && |s.lh| + MAXOPBLOCKS * |s.ops| + MAXOPBLOCKS <= LOGSIZE
    ensures s.phase.Idle? && s.ops == [] ==> s.lh == [] && Enabled(g, s, Begin)
  {
    StartInv(g, d0);
    SaneRun(g, |d0|, Start(d0), steps, s);
    RestRun(g, Start(d0), steps, s);
  }

  /** Without operations there is nothing to commit, or the commit is on. */
  lemma {:induction false} RestRun(g: Geometry, s: Sys, steps: seq<Step>, s': Sys)
    requires Run(g, s, steps, s') && (s.phase.Idle? && s.ops == [] ==> s.lh == [])
    ensures s'.phase.Idle? && s'.ops == [] ==> s'.lh == []
    decreases |steps|
  {
    if steps != [] {
      RestRun(g, Next(g, s, steps[0]), steps[1..], s');
    }
  }

  /** And while commit writes in the log area only, a reader sees all log_writes
      through the cache. */
  lemma ReadersSeeAll(g: Geometry, d0: Disk, steps: seq<Step>, s: Sys, b: nat)
    requires Formatted(g, d0) && Run(g, Start(d0), steps, s) && Clean(g, Start(d0), steps)
    requires s.phase.Idle? && IsHome(g, |d0|, b)
    ensures |s.disk| == |d0| && Apply(d0, s.hist)[b] == if b in s.cache then s.cache[b] else s.disk[b]
  {
    StartInv(g, d0);
    KeepRun(g, d0, Start(d0), steps, s);
  }

  /** A commit panics at its first write exactly when it has as many blocks as
      there are buffers. */
  lemma CommitNeedsBuffer(g: Geometry, d0: Disk, steps: seq<Step>, s: Sys)
    requires Formatted(g, d0) && 2 <= g.size && Run(g, Start(d0), steps, s)
    requires s.phase.Committing? && s.phase.w == 0 && Enabled(g, s, DiskWrite)
    ensures Next(g, s, DiskWrite).panicked <==> |s.lh| >= g.nbuf
  {
    StartInv(g, d0);
    SaneRun(g, |d0|, Start(d0), steps, s);
  }

  /** With log.size > LOGSIZE no in-budget append trips the guard, and the only
      in-budget log_write that does is one absorbed by a full log. */
  lemma BudgetSuffices(g: Geometry, d0: Disk, steps: seq<Step>, s: Sys, k: nat, b: nat)
    requires Formatted(g, d0) && LOGSIZE < g.size && Run(g, Start(d0), steps, s) && Enabled(g, s, Guard(k, b))
    ensures Next(g, s, Guard(k, b)).panicked <==> |s.lh| == LOGSIZE
    ensures Next(g, s, Guard(k, b)).panicked ==> b in s.lh
  {
    StartInv(g, d0);
    SaneRun(g, |d0|, Start(d0), steps, s);
    ReservedBounds(s.ops);
  }
}
