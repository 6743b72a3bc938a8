/** What goes through the pipe: every turn of pipewrite and piperead moves as many
    bytes as it can, the right ones, and over a run the pieces that a write has put
    in are its bytes in order. */
module PipeTransfers {
  import opened Common
  import opened PipeRing
  import opened PipeRuns

  /** Bytes that are in the pipe. */
  function There(y: Sys): int {
    |y.published| - |y.consumed|
  }

  ghost predicate NoReaderAsleep(y: Sys) {
    forall r: Tid :: !SleepingReader(y, r)
  }

  ghost predicate NoWriterAsleep(y: Sys) {
    forall w: Tid :: w < |y.calls| && Writing(y.calls[w]) ==> !y.calls[w].asleep
  }

  /** A turn of pipewrite.  Done, it returns, and no reader sleeps on.  At a full
      pipe it gives up if the read end is closed or it was killed, and else sleeps
      once the readers are awake.  Otherwise it puts in the next bytes, as many as
      there is room for, unless a user copy fails. */
  lemma WriterMoves(y: Sys, t: Tid, ok1: bool, ok2: bool)
    requires Inv(y) && Enabled(y, Turn(t, ok1, ok2)) && Writing(y.calls[t])
    ensures var y', c := Next(y, Turn(t, ok1, ok2)), y.calls[t];
      var src, i := c.job.src, c.job.i;
      && y'.consumed == y.consumed && |y'.calls| == |y.calls| && i <= |src|
      && if i == |src| then y'.published == y.published && y'.calls[t].Idle? && NoReaderAsleep(y')
         else if There(y) == PIPESIZE then
           && y'.published == y.published
           && if !y.readopen || t in y.killed then y'.calls[t].Idle?
              else y'.calls[t] == c.(asleep := true) && NoReaderAsleep(y')
         else
           var k := Min(PIPESIZE - There(y), |src| - i);
           && k > 0 && (ok1 && ok2 ==> y'.calls[t].Busy?)
           && if y'.calls[t].Idle? then y'.published == y.published
              else y'.calls[t] == Busy(Write(src, i + k), false) && y'.published == y.published + src[i..i + k]
  {
    Occupancy(y.ring, y.published, |y.consumed|);
    assert CallOk(y, t);
    if y.calls[t].job.i < |y.calls[t].job.src| && There(y) < PIPESIZE {
      WriterPutsIn(y, t, ok1, ok2);
    }
  }

  lemma WriterPutsIn(y: Sys, t: Tid, ok1: bool, ok2: bool)
    requires Inv(y) && Enabled(y, Turn(t, ok1, ok2)) && Writing(y.calls[t]) && CallOk(y, t)
    requires y.calls[t].job.i < |y.calls[t].job.src| && There(y) < PIPESIZE
    ensures var y', src, i := Next(y, Turn(t, ok1, ok2)), y.calls[t].job.src, y.calls[t].job.i;
      var k := Min(PIPESIZE - There(y), |src| - i);
      && k > 0 && (ok1 && ok2 ==> y'.calls[t].Busy?) && y'.consumed == y.consumed
      && if y'.calls[t].Idle? then y'.published == y.published
         else y'.calls[t] == Busy(Write(src, i + k), false) && y'.published == y.published + src[i..i + k]
  {
    Occupancy(y.ring, y.published, |y.consumed|);
    var src, i := y.calls[t].job.src, y.calls[t].job.i;
    var k := Min(PIPESIZE - There(y), |src| - i);
    assert WriteSize(y.ring, |src| - i) == k;
    PutPublishes(y.ring, y.published, |y.consumed|, src[i..i + k], ok1, ok2);
  }

  /** A turn of piperead.  At an empty pipe that can still be written it gives up if
      it was killed, and else sleeps.  Otherwise it returns, with the next bytes, as
      many as there are and it asked for, and no writer sleeps on, unless a user
      copy fails. */
  lemma ReaderMoves(y: Sys, t: Tid, ok1: bool, ok2: bool)
    requires Inv(y) && Enabled(y, Turn(t, ok1, ok2)) && Reading(y.calls[t])
    ensures var y', c := Next(y, Turn(t, ok1, ok2)), y.calls[t];
      && y'.published == y.published && |y'.calls| == |y.calls|
      && if There(y) == 0 && y.writeopen then
           && y'.consumed == y.consumed
           && if t in y.killed then y'.calls[t].Idle? else y'.calls[t] == c.(asleep := true)
         else
           var k, n := Min(There(y), c.job.n), |y.consumed|;
           && y'.calls[t].Idle? && n + k <= |y.published|
           && (ok1 && ok2 ==> y'.consumed == y.consumed + y.published[n..n + k] && NoWriterAsleep(y'))
           && (y'.consumed == y.consumed || y'.consumed == y.consumed + y.published[n..n + k])
  {
    Occupancy(y.ring, y.published, |y.consumed|);
    var k := ReadBytes(y, y.calls[t].job.n);
    if !(There(y) == 0 && y.writeopen) {
      FrontIsNext(y.ring, y.published, |y.consumed|, k);
    }
  }

  /** The rounds of the runs are those that Buffer.WriteRound and Buffer.ReadRound
      make in the array: the same bytes, put in and taken out in the same way. */
  lemma TurnIsWriteRound(y: Sys, t: Tid, ok1: bool, ok2: bool)
    requires Inv(y) && Enabled(y, Turn(t, ok1, ok2)) && Writing(y.calls[t])
    requires y.calls[t].job.i < |y.calls[t].job.src| && There(y) < PIPESIZE
    ensures var y', src, i := Next(y, Turn(t, ok1, ok2)), y.calls[t].job.src, y.calls[t].job.i;
      var k := WriteSize(y.ring, |src| - i);
      && k == Min(PIPESIZE - There(y), |src| - i) && Shaped(y.ring) && k <= PIPESIZE
      && (y'.ring, y'.calls[t].Busy?) == Put(y.ring, src[i..i + k], ok1, ok2)
  {
    assert CallOk(y, t);
    Occupancy(y.ring, y.published, |y.consumed|);
  }

  lemma TurnIsReadRound(y: Sys, t: Tid, ok1: bool, ok2: bool)
    requires Inv(y) && Enabled(y, Turn(t, ok1, ok2)) && Reading(y.calls[t]) && (There(y) > 0 || !y.writeopen)
    ensures var y', k := Next(y, Turn(t, ok1, ok2)), ReadSize(y.ring, y.calls[t].job.n);
      && k == Min(There(y), y.calls[t].job.n) && Shaped(y.ring) && k <= PIPESIZE
      && if Copied(y.ring.nread, k, ok1, ok2)
         then y'.ring == Drop(y.ring, k) && y'.consumed == y.consumed + Front(y.ring, k)
         else y'.ring == y.ring && y'.consumed == y.consumed
  {
    Occupancy(y.ring, y.published, |y.consumed|);
  }

  /** No other step moves a byte. */
  lemma OthersMoveNothing(y: Sys, a: Step)
    requires Inv(y) && Enabled(y, a) && !a.Turn?
    ensures Next(y, a).published == y.published && Next(y, a).consumed == y.consumed
  {
  }

  /** The pipe's lock is held by a thread that can take its turn, or any thread in a
      call that is not asleep can have it. */
  lemma LockGoesOn(threads: nat, data: seq<Byte>, steps: seq<Step>, y: Sys, t: Tid, ok1: bool, ok2: bool)
    requires |data| == PIPESIZE && Run(Start(threads, data), steps, y) && t < |y.calls| && Awake(y.calls[t])
    ensures if y.lock == Nobody then Enabled(y, Acquire(t)) else Enabled(y, Turn(y.lock.t, ok1, ok2))
  {
    StartInv(threads, data);
    RunInv(Start(threads, data), steps, y);
  }

  // ---- over a run ---------------------------------------------------------

  /** What thread t's latest write was called with, and what it has put in. */
  datatype Progress = Progress(src: seq<Byte>, put: seq<Byte>)

  ghost function After(p: Progress, y: Sys, a: Step, t: Tid): Progress
    requires Inv(y) && Enabled(y, a)
  {
    if a.CallWrite? && a.t == t then Progress(a.src, [])
    else if a.Turn? && a.t == t && |y.published| <= |Next(y, a).published| then
      p.(put := p.put + Next(y, a).published[|y.published|..])
    else p
  }

  ghost function ProgressOf(y: Sys, steps: seq<Step>, t: Tid, p: Progress): Progress
    decreases |steps|
  {
    if steps == [] || !Inv(y) || !Enabled(y, steps[0]) then p
    else ProgressOf(Next(y, steps[0]), steps[1..], t, After(p, y, steps[0], t))
  }

  /** A write of t under way has put in the first i bytes of its source. */
  ghost predicate OnTrack(y: Sys, t: Tid, p: Progress) {
    t < |y.calls| && Writing(y.calls[t]) ==>
      && y.calls[t].job.src == p.src && y.calls[t].job.i <= |p.src| && p.put == p.src[..y.calls[t].job.i]
  }

  lemma TrackStep(y: Sys, a: Step, t: Tid, p: Progress)
    requires Inv(y) && Enabled(y, a) && OnTrack(y, t, p)
    ensures OnTrack(Next(y, a), t, After(p, y, a, t))
  {
    if a.Turn? && Writing(y.calls[a.t]) {
      TrackWriter(y, a.t, a.ok1, a.ok2, t, p);
    } else if a.Turn? {
      ReaderMoves(y, a.t, a.ok1, a.ok2);
      ReaderJob(y, a.t, a.ok1, a.ok2);
    }
  }

  lemma TrackWriter(y: Sys, w: Tid, ok1: bool, ok2: bool, t: Tid, p: Progress)
    requires Inv(y) && Enabled(y, Turn(w, ok1, ok2)) && Writing(y.calls[w]) && OnTrack(y, t, p)
    ensures OnTrack(Next(y, Turn(w, ok1, ok2)), t, After(p, y, Turn(w, ok1, ok2), t))
  {
    var y' := Next(y, Turn(w, ok1, ok2));
    if w == t {
      var k := PutsIn(y, t, ok1, ok2);
      TrackTurn(y, y', t, p, k);
    } else {
      WriterJob(y, w, ok1, ok2);
    }
  }

  /** The bytes that a turn of pipewrite puts in. */
  lemma PutsIn(y: Sys, t: Tid, ok1: bool, ok2: bool) returns (k: nat)
    requires Inv(y) && Enabled(y, Turn(t, ok1, ok2)) && Writing(y.calls[t])
    ensures Moved(y, Next(y, Turn(t, ok1, ok2)), t, k)
  {
    WriterMoves(y, t, ok1, ok2);
    var y', job := Next(y, Turn(t, ok1, ok2)), y.calls[t].job;
    k := |y'.published| - |y.published|;
    assert y.published == y.published + job.src[job.i..job.i];
  }

  ghost predicate Moved(y: Sys, y': Sys, t: Tid, k: nat) {
    && t < |y.calls| == |y'.calls| && Writing(y.calls[t])
    && var job := y.calls[t].job;
       && job.i + k <= |job.src| && y'.published == y.published + job.src[job.i..job.i + k]
       && (Writing(y'.calls[t]) ==> y'.calls[t].job == Write(job.src, job.i + k))
  }

  lemma TrackTurn(y: Sys, y': Sys, t: Tid, p: Progress, k: nat)
    requires OnTrack(y, t, p) && Moved(y, y', t, k)
    ensures OnTrack(y', t, p.(put := p.put + y'.published[|y.published|..]))
  {
    var src, i := y.calls[t].job.src, y.calls[t].job.i;
    assert y'.published[|y.published|..] == src[i..i + k] && src[..i] + src[i..i + k] == src[..i + k];
  }

  lemma {:induction false} TrackRun(y: Sys, steps: seq<Step>, y': Sys, t: Tid, p: Progress)
    requires Inv(y) && Run(y, steps, y') && OnTrack(y, t, p)
    ensures OnTrack(y', t, ProgressOf(y, steps, t, p))
    decreases |steps|
  {
    if steps != [] {
      TrackStep(y, steps[0], t, p);
      StepInv(y, steps[0]);
      TrackRun(Next(y, steps[0]), steps[1..], y', t, After(p, y, steps[0], t));
    }
  }

  /** In every state of every run: what the turns of a write under way have put into
      the stream, one after the other, is the first i bytes of what the thread
      called it with; so a write that comes to its end has put in all of them. */
  lemma WritesInOrder(threads: nat, data: seq<Byte>, steps: seq<Step>, y: Sys, t: Tid)
    requires |data| == PIPESIZE && Run(Start(threads, data), steps, y) && t < |y.calls| && Writing(y.calls[t])
    ensures var p := ProgressOf(Start(threads, data), steps, t, Progress([], []));
      && y.calls[t].job.src == p.src && y.calls[t].job.i <= |p.src| && p.put == p.src[..y.calls[t].job.i]
      && (y.calls[t].job.i == |p.src| ==> p.put == p.src)
  {
    StartInv(threads, data);
    TrackRun(Start(threads, data), steps, y, t, Progress([], []));
  }
}
