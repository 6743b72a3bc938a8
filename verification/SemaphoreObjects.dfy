/** queue and semaphore_t as ucthreads.c updates them in place. */
module SemaphoreObjects {
  import opened Semaphores

  /** The place of the entry number i of a ring that begins at start. */
  function Place(start: nat, i: nat): (k: nat)
    ensures k < QMAX
  {
    (start + i) % QMAX
  }

  /** n entries of a ring from start on. */
  ghost function Ring(a: seq<nat>, start: nat, n: nat): (q: seq<nat>)
    requires |a| == QMAX
    ensures |q| == n
  {
    seq(n, i requires 0 <= i < n => a[Place(start, i)])
  }

  lemma RingPut(a: seq<nat>, start: nat, n: nat, x: nat)
    requires |a| == QMAX && start < QMAX && n < QMAX
    ensures Ring(a[Place(start, n) := x], start, n + 1) == Ring(a, start, n) + [x]
    ensures (Place(start, n) + 1) % QMAX == Place(start, n + 1)
  {
    var b := a[Place(start, n) := x];
    forall i | 0 <= i < n ensures b[Place(start, i)] == a[Place(start, i)] {
    }
  }

  lemma PlaceNext(start: nat, i: nat)
    requires start < QMAX
    ensures Place(Place(start, 1), i) == Place(start, i + 1) && Place(start, 0) == start
  {
    if start + 1 == QMAX {
      assert Place(start, 1) == 0 && start + (i + 1) == QMAX + i;
    } else {
      assert Place(start, 1) == start + 1 && start + (i + 1) == start + 1 + i;
    }
  }

  lemma RingTake(a: seq<nat>, start: nat, n: nat)
    requires |a| == QMAX && start < QMAX && 0 < n <= QMAX
    ensures Ring(a, start, n) == [a[start]] + Ring(a, Place(start, 1), n - 1)
    ensures Place(Place(start, 1), n - 1) == Place(start, n)
  {
    PlaceNext(start, n - 1);
    forall i | 1 <= i < n ensures Ring(a, start, n)[i] == Ring(a, Place(start, 1), n - 1)[i - 1] {
      PlaceNext(start, i - 1);
    }
  }

  /** The ring of waiting pids: arr, start, end, count. */
  class Queue {
    const arr: array<nat>
    var start: nat
    var end: nat
    var count: nat

    ghost predicate Valid()
      reads this
    {
      arr.Length == QMAX && start < QMAX && count <= QMAX && end == (start + count) % QMAX
    }

    /** The queued pids, oldest first. */
    ghost function Contents(): (q: seq<nat>)
      requires Valid()
      reads this, arr
      ensures |q| == count
    {
      Ring(arr[..], start, count)
    }

    constructor ()
      ensures Valid() && Contents() == [] && fresh(arr)
    {
      arr := new nat[QMAX](_ => 0);
      start, end, count := 0, 0, 0;
    }

    /** enq does not test for a full ring; SemaphoreLaws shows it never is. */
    method Enq(x: nat)
      requires Valid() && count < QMAX
      modifies this, arr
      ensures Valid() && Contents() == old(Contents()) + [x]
    {
      RingPut(arr[..], start, count, x);
      arr[end] := x;
      end := (end + 1) % QMAX;
      count := count + 1;
      assert arr[..] == old(arr[..])[old(end) := x];
    }

    method Deq() returns (x: nat)
      requires Valid() && count > 0
      modifies this
      ensures Valid() && [x] + Contents() == old(Contents())
    {
      RingTake(arr[..], start, count);
      x := arr[start];
      start := (start + 1) % QMAX;
      count := count - 1;
    }
  }

  class Semaphore {
    var guard: bool
    const waitq: Queue
    var count: int

    ghost predicate Valid()
      reads this, waitq
    {
      waitq.Valid()
    }

    /** The object shows the fields of the abstract semaphore m. */
    ghost predicate Shows(m: Sem)
      requires Valid()
      reads this, waitq, waitq.arr
    {
      guard == m.guard && count == m.count && waitq.Contents() == m.queue
    }

    constructor (n: int)
      ensures Valid() && Shows(SemInit(n)) && fresh(waitq) && fresh(waitq.arr)
    {
      guard, count := false, n;
      waitq := new Queue();
    }

    /** slock_acquire's exchange on the guard. */
    method TryGuard() returns (taken: bool)
      modifies this`guard
      ensures guard && taken == !old(guard)
    {
      taken := !guard;
      guard := true;
    }

    /** slock_release of the guard. */
    method ReleaseGuard(ghost m: Sem)
      requires Valid() && Shows(m)
      modifies this`guard
      ensures Valid() && Shows(m.(guard := false))
    {
      guard := false;
    }

    /** sem_down by thread t while it holds the guard; true when it must park. */
    method DownLocked(t: nat, ghost m: Sem) returns (queued: bool)
      requires Valid() && Shows(m) && |m.queue| < QMAX
      modifies this`count, waitq, waitq.arr
      ensures Valid() && Shows(DownBody(m, t))
      ensures queued <==> m.count - 1 < 0
    {
      count := count - 1;
      queued := count < 0;
      if queued {
        waitq.Enq(t);
      }
    }

    /** sem_up while it holds the guard; the pid to unpark, if any. */
    method UpLocked(ghost m: Sem) returns (wake: bool, who: nat)
      requires Valid() && Shows(m) && (m.count + 1 <= 0 ==> m.queue != [])
      modifies this`count, waitq
      ensures Valid() && Shows(UpBody(m))
      ensures wake <==> m.count + 1 <= 0
      ensures wake ==> who == m.queue[0]
    {
      count := count + 1;
      wake, who := count <= 0, 0;
      if wake {
        who := waitq.Deq();
        assert m.queue == [who] + waitq.Contents();
      }
    }
  }
}
