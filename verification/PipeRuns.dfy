/** Any number of threads in pipewrite and piperead.  A thread that holds the
    pipe's lock makes one turn of its loop per step; sleep gives up the lock in
    the same step, since it takes ptable.lock first.  A turn reads the killed flag
    before that, so a kill may come in between and wake nobody. */
module PipeRuns {

  import opened Common
  import opened PipeRing

  datatype Job = Write(src: seq<Byte>, i: nat) | Read(n: nat)

  datatype Call = Idle | Busy(job: Job, asleep: bool)

  datatype Holder = Nobody | Held(t: Tid)

  /** published and consumed record all bytes put in and taken out so far. */
  datatype Sys = Sys(ring: Ring, readopen: bool, writeopen: bool, lock: Holder, calls: seq<Call>, killed: set<Tid>,
                     published: seq<Byte>, consumed: seq<Byte>)

  datatype Step =
    | CallWrite(t: Tid, src: seq<Byte>)
    | CallRead(t: Tid, n: nat)
    | Acquire(t: Tid)
    | Turn(t: Tid, ok1: bool, ok2: bool)
    | CloseRead
    | CloseWrite
    | Kill(t: Tid, late: bool)        // late: it came between t's test and t's sleep

  function Start(threads: nat, data: seq<Byte>): Sys {
    Sys(Ring(data, 0, 0), true, true, Nobody, seq(threads, _ => Idle), {}, [], [])
  }

  // ---- the steps ----------------------------------------------------------

  /** wakeup(&p->nread) and wakeup(&p->nwrite). */
  function WakeReaders(calls: seq<Call>): (r: seq<Call>)
    ensures |r| == |calls|
  {
    seq(|calls|, j requires 0 <= j < |calls| => if Reading(calls[j]) then calls[j].(asleep := false) else calls[j])
  }

  function WakeWriters(calls: seq<Call>): (r: seq<Call>)
    ensures |r| == |calls|
  {
    seq(|calls|, j requires 0 <= j < |calls| => if Writing(calls[j]) then calls[j].(asleep := false) else calls[j])
  }

  predicate Awake(c: Call) {
    c.Busy? && !c.asleep
  }

  predicate Writing(c: Call) {
    c.Busy? && c.job.Write?
  }

  predicate Reading(c: Call) {
    c.Busy? && c.job.Read?
  }

  predicate Enabled(y: Sys, a: Step) {
    match a
    case CallWrite(t, src) => t < |y.calls| && y.calls[t].Idle? && y.writeopen
    case CallRead(t, n) => t < |y.calls| && y.calls[t].Idle? && y.readopen
    case Acquire(t) => t < |y.calls| && Awake(y.calls[t]) && y.lock == Nobody
    case Turn(t, _, _) => t < |y.calls| && Awake(y.calls[t]) && y.lock == Held(t)
    // an end is closed by its last reference, so by no thread that is using it
    case CloseRead => y.readopen && y.lock == Nobody && forall t :: 0 <= t < |y.calls| ==> !Reading(y.calls[t])
    case CloseWrite => y.writeopen && y.lock == Nobody && forall t :: 0 <= t < |y.calls| ==> !Writing(y.calls[t])
    case Kill(t, _) => t < |y.calls|
  }

  function Return(y: Sys, t: Tid): Sys
    requires t < |y.calls|
  {
    y.(calls := y.calls[t := Idle], lock := Nobody)
  }

  /** The sizes of a round, which never exceed the ring. */
  function WriteBytes(y: Sys, left: nat): (n: nat)
    requires Inv(y)
    ensures n == WriteSize(y.ring, left) && |y.published| + n <= |y.consumed| + PIPESIZE
    ensures n < left ==> |y.published| + n == |y.consumed| + PIPESIZE
  {
    Occupancy(y.ring, y.published, |y.consumed|);
    WriteSize(y.ring, left)
  }

  function ReadBytes(y: Sys, n: nat): (k: nat)
    requires Inv(y)
    ensures k == ReadSize(y.ring, n) && |y.consumed| + k <= |y.published|
  {
    Occupancy(y.ring, y.published, |y.consumed|);
    ReadSize(y.ring, n)
  }

  /** One turn of pipewrite's for loop. */
  function WriterTurn(y: Sys, t: Tid, ok1: bool, ok2: bool): (y': Sys)
    requires Inv(y) && t < |y.calls| && Writing(y.calls[t])
    ensures |y'.calls| == |y.calls|
  {
    assert CallOk(y, t);
    var c, job := y.calls[t], y.calls[t].job;
    if job.i == |job.src| then Return(y.(calls := WakeReaders(y.calls)), t)
    else if Full(y.ring) then
      if !y.readopen || t in y.killed then Return(y, t)
      else y.(calls := WakeReaders(y.calls)[t := c.(asleep := true)], lock := Nobody)
    else
      var bytes := WriteBytes(y, |job.src| - job.i);
      var (ring, ok) := Put(y.ring, job.src[job.i..job.i + bytes], ok1, ok2);
      if !ok then Return(y.(ring := ring), t)
      else y.(ring := ring, calls := y.calls[t := Busy(Write(job.src, job.i + bytes), false)],
              published := y.published + job.src[job.i..job.i + bytes])
  }

  /** One turn of piperead. */
  function ReaderTurn(y: Sys, t: Tid, ok1: bool, ok2: bool): (y': Sys)
    requires Inv(y) && t < |y.calls| && Reading(y.calls[t])
    ensures |y'.calls| == |y.calls|
  {
    if Empty(y.ring) && y.writeopen then
      if t in y.killed then Return(y, t)
      else y.(calls := y.calls[t := y.calls[t].(asleep := true)], lock := Nobody)
    else
      var bytes := ReadBytes(y, y.calls[t].job.n);
      if !Copied(y.ring.nread, bytes, ok1, ok2) then Return(y, t)
      else
        Return(y.(ring := Drop(y.ring, bytes), calls := WakeWriters(y.calls),
                  consumed := y.consumed + Front(y.ring, bytes)), t)
  }

  function Next(y: Sys, a: Step): Sys
    requires Inv(y) && Enabled(y, a)
  {
    match a
    case CallWrite(t, src) => y.(calls := y.calls[t := Busy(Write(src, 0), false)])
    case CallRead(t, n) => y.(calls := y.calls[t := Busy(Read(n), false)])
    case Acquire(t) => y.(lock := Held(t))
    case Turn(t, ok1, ok2) =>
      if Writing(y.calls[t]) then WriterTurn(y, t, ok1, ok2) else ReaderTurn(y, t, ok1, ok2)
    case CloseRead => y.(readopen := false, calls := WakeWriters(y.calls))
    case CloseWrite => y.(writeopen := false, calls := WakeReaders(y.calls))
    case Kill(t, late) =>
      y.(killed := y.killed + {t},
         calls := if y.calls[t].Busy? && !late then y.calls[t := y.calls[t].(asleep := false)] else y.calls)
  }

  // ---- the stream ---------------------------------------------------------

  predicate CallOk(y: Sys, t: Tid) {
    t < |y.calls| && Writing(y.calls[t]) ==> y.calls[t].job.i <= |y.calls[t].job.src|
  }

  predicate HolderOk(y: Sys) {
    y.lock.Held? ==> y.lock.t < |y.calls| && Awake(y.calls[y.lock.t])
  }

  ghost predicate Stream(y: Sys) {
    Holds(y.ring, y.published, |y.consumed|) && y.consumed <= y.published
  }

  /** What has been consumed is a prefix of what has been published, and the
      ring holds the rest. */
  ghost predicate Inv(y: Sys) {
    Stream(y) && (forall t: Tid :: CallOk(y, t)) && HolderOk(y)
  }

  lemma StartInv(threads: nat, data: seq<Byte>)
    requires |data| == PIPESIZE
    ensures Inv(Start(threads, data))
  {
  }

  lemma StreamPut(y: Sys, src: seq<Byte>, ok1: bool, ok2: bool, y': Sys)
    requires Stream(y) && |y.published| + |src| <= |y.consumed| + PIPESIZE && Puts(y, src, ok1, ok2, y')
    ensures Stream(y')
  {
    PutPublishes(y.ring, y.published, |y.consumed|, src, ok1, ok2);
    assert y.consumed <= y.published + src;
  }

  /** From y to y' the bytes src have been put in, or a user copy has failed. */
  predicate Puts(y: Sys, src: seq<Byte>, ok1: bool, ok2: bool, y': Sys) {
    && Shaped(y.ring) && |src| <= PIPESIZE
    && var (r, ok) := Put(y.ring, src, ok1, ok2);
       && y'.ring == r && y'.consumed == y.consumed
       && y'.published == if ok then y.published + src else y.published
  }

  lemma WriterPuts(y: Sys, t: Tid, ok1: bool, ok2: bool) returns (src: seq<Byte>)
    requires Inv(y) && t < |y.calls| && Writing(y.calls[t]) && CallOk(y, t)
    requires y.calls[t].job.i < |y.calls[t].job.src| && !Full(y.ring)
    ensures |y.published| + |src| <= |y.consumed| + PIPESIZE
    ensures Puts(y, src, ok1, ok2, WriterTurn(y, t, ok1, ok2))
  {
    var job := y.calls[t].job;
    src := job.src[job.i..job.i + WriteBytes(y, |job.src| - job.i)];
  }

  lemma StreamDrop(y: Sys, bytes: nat)
    requires Stream(y) && |y.consumed| + bytes <= |y.published|
    ensures var consumed := y.consumed + Front(y.ring, bytes);
      Holds(Drop(y.ring, bytes), y.published, |consumed|) && consumed <= y.published
  {
    FrontIsNext(y.ring, y.published, |y.consumed|, bytes);
    assert y.consumed + y.published[|y.consumed|..|y.consumed| + bytes] == y.published[..|y.consumed| + bytes];
  }

  /** A turn that puts nothing in. */
  lemma WriterRests(y: Sys, t: Tid, ok1: bool, ok2: bool)
    requires Inv(y) && t < |y.calls| && Writing(y.calls[t])
    requires y.calls[t].job.i == |y.calls[t].job.src| || Full(y.ring)
    ensures var y' := WriterTurn(y, t, ok1, ok2);
      y'.ring == y.ring && y'.published == y.published && y'.consumed == y.consumed
  {
  }

  lemma StreamSame(y: Sys, y': Sys)
    requires Stream(y) && y'.ring == y.ring && y'.published == y.published && y'.consumed == y.consumed
    ensures Stream(y')
  {
  }

  lemma WriterStream(y: Sys, t: Tid, ok1: bool, ok2: bool, y': Sys)
    requires Inv(y) && t < |y.calls| && Writing(y.calls[t]) && y' == WriterTurn(y, t, ok1, ok2)
    ensures Stream(y')
  {
    assert CallOk(y, t);
    if y.calls[t].job.i < |y.calls[t].job.src| && !Full(y.ring) {
      var src := WriterPuts(y, t, ok1, ok2);
      StreamPut(y, src, ok1, ok2, y');
    } else {
      WriterRests(y, t, ok1, ok2);
      StreamSame(y, y');
    }
  }

  lemma ReaderStream(y: Sys, t: Tid, ok1: bool, ok2: bool)
    requires Inv(y) && t < |y.calls| && Reading(y.calls[t])
    ensures Stream(ReaderTurn(y, t, ok1, ok2))
  {
    StreamDrop(y, ReadBytes(y, y.calls[t].job.n));
  }

  lemma StepStream(y: Sys, a: Step)
    requires Inv(y) && Enabled(y, a)
    ensures Stream(Next(y, a))
  {
    if a.Turn? {
      if Writing(y.calls[a.t]) {
        WriterStream(y, a.t, a.ok1, a.ok2, Next(y, a));
      } else {
        ReaderStream(y, a.t, a.ok1, a.ok2);
      }
    }
  }

  lemma StepCall(y: Sys, a: Step, t: Tid)
    requires Inv(y) && Enabled(y, a)
    ensures CallOk(Next(y, a), t)
  {
    assert CallOk(y, t);
    if a.Turn? {
      TurnCall(y, a.t, a.ok1, a.ok2, t);
    }
  }

  lemma TurnCall(y: Sys, t: Tid, ok1: bool, ok2: bool, u: Tid)
    requires Inv(y) && Enabled(y, Turn(t, ok1, ok2))
    ensures CallOk(Next(y, Turn(t, ok1, ok2)), u)
  {
    assert CallOk(y, u);
    if Writing(y.calls[t]) {
      WriterJob(y, t, ok1, ok2);
    } else {
      ReaderJob(y, t, ok1, ok2);
    }
  }

  /** What a turn does to the other calls, and how far its own has come. */
  lemma WriterJob(y: Sys, t: Tid, ok1: bool, ok2: bool)
    requires Inv(y) && t < |y.calls| && Writing(y.calls[t])
    ensures var calls := WriterTurn(y, t, ok1, ok2).calls;
      && (forall u :: 0 <= u < |calls| && u != t ==> SameJob(y.calls[u], calls[u]))
      && (Writing(calls[t]) ==> calls[t].job.i <= |calls[t].job.src|)
  {
    assert CallOk(y, t);
  }

  lemma ReaderJob(y: Sys, t: Tid, ok1: bool, ok2: bool)
    requires Inv(y) && t < |y.calls| && Reading(y.calls[t])
    ensures var calls := ReaderTurn(y, t, ok1, ok2).calls;
      (forall u :: 0 <= u < |calls| && u != t ==> SameJob(y.calls[u], calls[u])) && !Writing(calls[t])
  {
  }

  predicate SameJob(c: Call, c': Call) {
    c.Busy? == c'.Busy? && (c.Busy? ==> c.job == c'.job)
  }

  lemma StepInv(y: Sys, a: Step)
    requires Inv(y) && Enabled(y, a)
    ensures Inv(Next(y, a))
  {
    StepStream(y, a);
    forall t: Tid ensures CallOk(Next(y, a), t) {
      StepCall(y, a, t);
    }
    StepHolder(y, a);
  }

  lemma StepHolder(y: Sys, a: Step)
    requires Inv(y) && Enabled(y, a)
    ensures HolderOk(Next(y, a))
  {
  }

  // ---- runs ---------------------------------------------------------------

  ghost predicate Run(y: Sys, steps: seq<Step>, y': Sys)
    decreases |steps|
  {
    if steps == [] then y == y'
    else Inv(y) && Enabled(y, steps[0]) && Run(Next(y, steps[0]), steps[1..], y')
  }

  lemma {:induction false} RunInv(y: Sys, steps: seq<Step>, y': Sys)
    requires Inv(y) && Run(y, steps, y')
    ensures Inv(y')
    decreases |steps|
  {
    if steps != [] {
      StepInv(y, steps[0]);
      RunInv(Next(y, steps[0]), steps[1..], y');
    }
  }

  /** For any number of threads and any interleaving, kills and failing copies
      included: the bytes read are a prefix of the bytes published, at most
      PIPESIZE bytes are in between, and the next read gets the next of them. */
  lemma PipeStream(threads: nat, data: seq<Byte>, steps: seq<Step>, y: Sys, bytes: nat)
    requires |data| == PIPESIZE && Run(Start(threads, data), steps, y)
    ensures y.consumed <= y.published && |y.published| - |y.consumed| <= PIPESIZE
    ensures (y.ring.nwrite - y.ring.nread) % WORD == |y.published| - |y.consumed|
    ensures |y.consumed| + bytes <= |y.published| ==>
              Shaped(y.ring) && Front(y.ring, bytes) == y.published[|y.consumed|..|y.consumed| + bytes]
  {
    StartInv(threads, data);
    RunInv(Start(threads, data), steps, y);
    Occupancy(y.ring, y.published, |y.consumed|);
    if |y.consumed| + bytes <= |y.published| {
      FrontIsNext(y.ring, y.published, |y.consumed|, bytes);
    }
  }

  // ---- wakeups: the writers -----------------------------------------------

  /** A write end in use is open, and a sleeping writer has no room. */
  predicate WriterOk(y: Sys, t: Tid) {
    t < |y.calls| && Writing(y.calls[t]) ==>
      y.writeopen && (y.calls[t].asleep ==> y.readopen && Full(y.ring))
  }

  /** The lock holder's turn, seen from a writer. */
  lemma WriterSeesWriter(y: Sys, t: Tid, ok1: bool, ok2: bool, u: Tid)
    requires Inv(y) && WriterOk(y, t) && WriterOk(y, u) && Enabled(y, Turn(t, ok1, ok2)) && Writing(y.calls[t])
    ensures WriterOk(WriterTurn(y, t, ok1, ok2), u)
  {
    assert CallOk(y, t);
  }

  lemma WriterSeesReader(y: Sys, t: Tid, ok1: bool, ok2: bool, u: Tid)
    requires Inv(y) && WriterOk(y, u) && Enabled(y, Turn(t, ok1, ok2)) && Reading(y.calls[t])
    ensures WriterOk(ReaderTurn(y, t, ok1, ok2), u)
  {
  }

  /** Every step, a kill too, leaves a sleeping writer only beside a full pipe. */
  lemma StepWriters(y: Sys, a: Step, u: Tid)
    requires Inv(y) && Enabled(y, a) && forall t: Tid :: WriterOk(y, t)
    ensures WriterOk(Next(y, a), u)
  {
    assert WriterOk(y, u);
    if a.Turn? {
      assert WriterOk(y, a.t);
      if Writing(y.calls[a.t]) {
        WriterSeesWriter(y, a.t, a.ok1, a.ok2, u);
      } else {
        WriterSeesReader(y, a.t, a.ok1, a.ok2, u);
      }
    }
  }

  lemma {:induction false} RunWriters(y: Sys, steps: seq<Step>, y': Sys)
    requires Inv(y) && Run(y, steps, y') && forall t: Tid :: WriterOk(y, t)
    ensures forall t: Tid :: WriterOk(y', t)
    decreases |steps|
  {
    if steps != [] {
      forall u: Tid ensures WriterOk(Next(y, steps[0]), u) { StepWriters(y, steps[0], u); }
      StepInv(y, steps[0]);
      RunWriters(Next(y, steps[0]), steps[1..], y');
    }
  }

  /** In every state of every run, kills included, a sleeping writer has no room
      and there is a read end to make some. */
  lemma WritersWoken(threads: nat, data: seq<Byte>, steps: seq<Step>, y: Sys, t: Tid)
    requires |data| == PIPESIZE && Run(Start(threads, data), steps, y)
    requires t < |y.calls| && Writing(y.calls[t]) && y.calls[t].asleep
    ensures |y.published| == |y.consumed| + PIPESIZE && y.readopen
  {
    StartInv(threads, data);
    forall u: Tid ensures WriterOk(Start(threads, data), u) {
    }
    RunWriters(Start(threads, data), steps, y);
    RunInv(Start(threads, data), steps, y);
    Occupancy(y.ring, y.published, |y.consumed|);
    assert WriterOk(y, t);
  }

  // ---- wakeups: the readers -----------------------------------------------

  predicate SleepingReader(y: Sys, t: Tid) {
    t < |y.calls| && Reading(y.calls[t]) && y.calls[t].asleep
  }

  /** The lock is held by a writer that is about to look at the readers. */
  predicate AboutToWake(y: Sys) {
    && y.lock.Held? && y.lock.t < |y.calls| && Writing(y.calls[y.lock.t])
    && (y.calls[y.lock.t].job.i == |y.calls[y.lock.t].job.src| || Full(y.ring))
  }

  /** A read end in use is open, and a sleeping reader has nothing to read, or a
      writer that has the lock has yet to look. */
  predicate ReaderOk(y: Sys, t: Tid) {
    t < |y.calls| && Reading(y.calls[t]) ==>
      y.readopen && (y.calls[t].asleep ==> y.writeopen && (Empty(y.ring) || AboutToWake(y)))
  }

  ghost predicate ReadersOk(y: Sys) {
    forall t: Tid :: ReaderOk(y, t)
  }

  /** A killed writer leaves a full pipe and a sleeping reader behind. */
  ghost predicate Strands(y: Sys, a: Step) {
    && a.Turn? && a.t < |y.calls| && Writing(y.calls[a.t]) && y.calls[a.t].job.i < |y.calls[a.t].job.src|
    && Full(y.ring) && y.readopen && a.t in y.killed && exists r: Tid :: SleepingReader(y, r)
  }

  /** With the lock free, a reader sleeps though there are bytes or no writers. */
  ghost predicate Lost(y: Sys) {
    y.lock == Nobody && exists r: Tid :: SleepingReader(y, r) && !(Empty(y.ring) && y.writeopen)
  }

  lemma ReaderSeesWriter(y: Sys, t: Tid, ok1: bool, ok2: bool, u: Tid)
    requires Inv(y) && WriterOk(y, t) && ReaderOk(y, u) && Enabled(y, Turn(t, ok1, ok2)) && Writing(y.calls[t])
    requires !Strands(y, Turn(t, ok1, ok2))
    ensures ReaderOk(WriterTurn(y, t, ok1, ok2), u)
  {
    assert CallOk(y, t);
    var y' := WriterTurn(y, t, ok1, ok2);
    WriterStream(y, t, ok1, ok2, y');
    Occupancy(y'.ring, y'.published, |y'.consumed|);
    assert !(Full(y.ring) && y.readopen && t in y.killed && y.calls[t].job.i < |y.calls[t].job.src| &&
             SleepingReader(y, u));
  }

  lemma ReaderSeesReader(y: Sys, t: Tid, ok1: bool, ok2: bool, u: Tid)
    requires Inv(y) && ReaderOk(y, t) && ReaderOk(y, u) && Enabled(y, Turn(t, ok1, ok2)) && Reading(y.calls[t])
    ensures ReaderOk(ReaderTurn(y, t, ok1, ok2), u)
  {
    Occupancy(y.ring, y.published, |y.consumed|);
  }

  lemma StepReader(y: Sys, a: Step, u: Tid)
    requires Inv(y) && Enabled(y, a) && ReadersOk(y) && (forall t: Tid :: WriterOk(y, t)) && !Strands(y, a)
    ensures ReaderOk(Next(y, a), u)
  {
    assert ReaderOk(y, u);
    if a.Turn? {
      assert ReaderOk(y, a.t) && WriterOk(y, a.t);
      if Writing(y.calls[a.t]) {
        ReaderSeesWriter(y, a.t, a.ok1, a.ok2, u);
      } else {
        ReaderSeesReader(y, a.t, a.ok1, a.ok2, u);
      }
    }
  }

  /** The step that strands a reader is the one that loses the wakeup. */
  lemma StrandsLoses(y: Sys, a: Step)
    requires Inv(y) && Enabled(y, a) && Strands(y, a)
    ensures Lost(Next(y, a)) && !ReadersOk(Next(y, a))
  {
    var r: Tid :| SleepingReader(y, r);
    Occupancy(y.ring, y.published, |y.consumed|);
    assert SleepingReader(Next(y, a), r);
    assert !ReaderOk(Next(y, a), r);
  }

  /** The exact condition: of all steps, kills included, only the one in which a
      killed writer finds the pipe full beside a sleeping reader leaves a reader
      asleep that should be awake. */
  lemma StepReaders(y: Sys, a: Step)
    requires Inv(y) && Enabled(y, a) && ReadersOk(y) && forall t: Tid :: WriterOk(y, t)
    ensures ReadersOk(Next(y, a)) <==> !Strands(y, a)
  {
    if Strands(y, a) {
      StrandsLoses(y, a);
    } else {
      forall u: Tid ensures ReaderOk(Next(y, a), u) { StepReader(y, a, u); }
    }
  }

  /** Some state of the run has lost a wakeup; some step of it strands a reader. */
  ghost predicate EverLost(y: Sys, steps: seq<Step>)
    decreases |steps|
  {
    Lost(y) || (steps != [] && Inv(y) && Enabled(y, steps[0]) && EverLost(Next(y, steps[0]), steps[1..]))
  }

  ghost predicate EverStrands(y: Sys, steps: seq<Step>)
    decreases |steps|
  {
    steps != [] && Inv(y) && Enabled(y, steps[0]) &&
    (Strands(y, steps[0]) || EverStrands(Next(y, steps[0]), steps[1..]))
  }

  lemma {:induction false} RunReaders(y: Sys, steps: seq<Step>, y': Sys)
    requires Inv(y) && ReadersOk(y) && (forall t: Tid :: WriterOk(y, t)) && Run(y, steps, y')
    ensures EverLost(y, steps) <==> EverStrands(y, steps)
    ensures !EverStrands(y, steps) ==> ReadersOk(y')
    decreases |steps|
  {
    forall r: Tid ensures !(y.lock == Nobody && SleepingReader(y, r) && !(Empty(y.ring) && y.writeopen)) {
      assert ReaderOk(y, r);
    }
    if steps != [] {
      var z := Next(y, steps[0]);
      StepReaders(y, steps[0]);
      StepInv(y, steps[0]);
      forall u: Tid ensures WriterOk(z, u) { StepWriters(y, steps[0], u); }
      if Strands(y, steps[0]) {
        StrandsLoses(y, steps[0]);
        assert EverLost(z, steps[1..]);
      } else {
        RunReaders(z, steps[1..], y');
      }
    }
  }

  lemma StartSleep(threads: nat, data: seq<Byte>)
    ensures ReadersOk(Start(threads, data)) && forall t: Tid :: WriterOk(Start(threads, data), t)
  {
    forall u: Tid ensures ReaderOk(Start(threads, data), u) && WriterOk(Start(threads, data), u) {
    }
  }

  /** Over whole runs: a reader is ever left asleep beside bytes, or with nobody
      left to write, exactly if a step of the run strands it. */
  lemma LostExactly(threads: nat, data: seq<Byte>, steps: seq<Step>, y: Sys)
    requires |data| == PIPESIZE && Run(Start(threads, data), steps, y)
    ensures EverLost(Start(threads, data), steps) <==> EverStrands(Start(threads, data), steps)
  {
    StartInv(threads, data);
    StartSleep(threads, data);
    RunReaders(Start(threads, data), steps, y);
  }

  /** So without such a step no reader sleeps while there are bytes or the write
      end is closed. */
  lemma NoLostWakeup(threads: nat, data: seq<Byte>, steps: seq<Step>, y: Sys, t: Tid)
    requires |data| == PIPESIZE && Run(Start(threads, data), steps, y) && y.lock == Nobody
    requires !EverStrands(Start(threads, data), steps) && SleepingReader(y, t)
    ensures |y.published| == |y.consumed| && y.writeopen
  {
    StartInv(threads, data);
    StartSleep(threads, data);
    RunReaders(Start(threads, data), steps, y);
    RunInv(Start(threads, data), steps, y);
    Occupancy(y.ring, y.published, |y.consumed|);
    assert ReaderOk(y, t);
  }

  lemma {:induction false} NoKillNoStrand(y: Sys, steps: seq<Step>, y': Sys)
    requires Inv(y) && Run(y, steps, y') && y.killed == {} && forall i :: 0 <= i < |steps| ==> !steps[i].Kill?
    ensures !EverStrands(y, steps)
    decreases |steps|
  {
    if steps != [] {
      StepInv(y, steps[0]);
      NoKillNoStrand(Next(y, steps[0]), steps[1..], y');
    }
  }

  /** In particular not in a run without kills. */
  lemma NoKillNoLoss(threads: nat, data: seq<Byte>, steps: seq<Step>, y: Sys)
    requires |data| == PIPESIZE && Run(Start(threads, data), steps, y)
    requires forall i :: 0 <= i < |steps| ==> !steps[i].Kill?
    ensures !EverLost(Start(threads, data), steps)
    ensures forall t: Tid :: y.lock == Nobody && SleepingReader(y, t) ==>
      |y.published| == |y.consumed| && y.writeopen
  {
    StartInv(threads, data);
    NoKillNoStrand(Start(threads, data), steps, y);
    LostExactly(threads, data, steps, y);
    forall t: Tid | y.lock == Nobody && SleepingReader(y, t)
      ensures |y.published| == |y.consumed| && y.writeopen
    {
      NoLostWakeup(threads, data, steps, y, t);
    }
  }

  // ---- a run that loses one -----------------------------------------------

  lemma RunCons(y: Sys, a: Step, steps: seq<Step>, y': Sys)
    requires Inv(y) && Enabled(y, a) && Run(Next(y, a), steps, y')
    ensures Run(y, [a] + steps, y')
  {
    assert ([a] + steps)[1..] == steps;
  }

  /** A reader sleeps at the empty pipe; a writer of more than fits gets the lock
      and is killed, fills the pipe, and leaves. */
  lemma KillLosesWakeup(data: seq<Byte>, src: seq<Byte>) returns (steps: seq<Step>, y: Sys)
    requires |data| == PIPESIZE && |src| > PIPESIZE
    ensures Run(Start(2, data), steps, y) && Lost(y)
  {
    var y0, kill := Start(2, data), Kill(0, false);
    StartInv(2, data);
    var y1 := Next(y0, CallRead(1, 1));
    StepInv(y0, CallRead(1, 1));
    var y2 := Next(y1, CallWrite(0, src));
    StepInv(y1, CallWrite(0, src));
    var y3 := Next(y2, Acquire(1));
    StepInv(y2, Acquire(1));
    var y4 := Next(y3, Turn(1, true, true));
    StepInv(y3, Turn(1, true, true));
    var y5 := Next(y4, Acquire(0));
    StepInv(y4, Acquire(0));
    var y6 := Next(y5, kill);
    StepInv(y5, kill);
    var more := FillAndLeave(y6, 0, 1);
    y := Next(Next(y6, Turn(0, true, true)), Turn(0, true, true));
    RunCons(y5, kill, more, y);
    RunCons(y4, Acquire(0), [kill] + more, y);
    RunCons(y3, Turn(1, true, true), [Acquire(0)] + ([kill] + more), y);
    RunCons(y2, Acquire(1), [Turn(1, true, true)] + ([Acquire(0)] + ([kill] + more)), y);
    RunCons(y1, CallWrite(0, src), [Acquire(1)] + ([Turn(1, true, true)] + ([Acquire(0)] + ([kill] + more))), y);
    steps := [CallRead(1, 1)] + ([CallWrite(0, src)] + ([Acquire(1)] + ([Turn(1, true, true)] +
             ([Acquire(0)] + ([kill] + more)))));
    RunCons(y0, CallRead(1, 1), steps[1..], y);
  }

  lemma FillAndLeave(y: Sys, w: Tid, r: Tid) returns (steps: seq<Step>)
    requires Inv(y) && w < |y.calls| && r < |y.calls| && y.lock == Held(w) && w in y.killed
    requires SleepingReader(y, r) && Empty(y.ring)
    requires y.calls[w].Busy? && y.calls[w].job.Write? && |y.calls[w].job.src| > y.calls[w].job.i + PIPESIZE
    ensures Enabled(y, Turn(w, true, true)) && Inv(Next(y, Turn(w, true, true)))
    ensures Enabled(Next(y, Turn(w, true, true)), Turn(w, true, true))
    ensures var y' := Next(Next(y, Turn(w, true, true)), Turn(w, true, true)); Run(y, steps, y') && Lost(y')
  {
    var a := Turn(w, true, true);
    Occupancy(y.ring, y.published, |y.consumed|);
    var job := y.calls[w].job;
    PutPublishes(y.ring, y.published, |y.consumed|, job.src[job.i..job.i + PIPESIZE], true, true);
    StepInv(y, a);
    var y1 := Next(y, a);
    Occupancy(y1.ring, y1.published, |y1.consumed|);
    var y2 := Next(y1, a);
    assert SleepingReader(y2, r);
    RunCons(y1, a, [], y2);
    RunCons(y, a, [a], y2);
    steps := [a, a];
    assert [a] + [a] == steps && [a] + [] == [a];
  }
}
