/** The buffer list of bio.c: buffers in an array, linked both ways in order of
    use through a head that is not a buffer. */
module BufferList {

  import opened Common

  const HEAD: nat := NBUF
  const ROOTDEV: nat := 1

  type Block = seq<int>

  datatype Buf = Buf(dev: nat, blockno: nat, valid: bool, dirty: bool, locked: bool, refcnt: nat, data: Block)

  // ---- the list as a sequence, most recently used first -------------------

  /** Every buffer once. */
  ghost predicate Order(order: seq<nat>) {
    && |order| == NBUF && (forall k :: 0 <= k < |order| ==> order[k] < NBUF)
    && Distinct(order) && (forall b: nat :: b < NBUF ==> b in order)
  }

  ghost predicate Distinct(order: seq<nat>) {
    forall j, k :: 0 <= j < k < |order| ==> order[j] != order[k]
  }

  predicate For(b: Buf, dev: nat, blockno: nat) {
    b.dev == dev && b.blockno == blockno
  }

  predicate Reusable(b: Buf) {
    b.refcnt == 0 && !b.dirty
  }

  predicate Indexes(order: seq<nat>, bufs: seq<Buf>) {
    forall k :: 0 <= k < |order| ==> order[k] < |bufs|
  }

  /** The position of the first buffer for a block, or -1. */
  function Cached(order: seq<nat>, bufs: seq<Buf>, dev: nat, blockno: nat, from: nat): (k: int)
    requires Indexes(order, bufs) && from <= |order|
    ensures k == -1 ==> forall i :: from <= i < |order| ==> !For(bufs[order[i]], dev, blockno)
    ensures k != -1 ==>
      && from <= k < |order| && For(bufs[order[k]], dev, blockno)
      && forall i :: from <= i < k ==> !For(bufs[order[i]], dev, blockno)
    decreases |order| - from
  {
    if from == |order| then -1
    else if For(bufs[order[from]], dev, blockno) then from
    else Cached(order, bufs, dev, blockno, from + 1)
  }

  /** The position of the last, so least recently used, buffer that may be
      recycled, or -1. */
  function Victim(order: seq<nat>, bufs: seq<Buf>, to: nat): (k: int)
    requires Indexes(order, bufs) && to <= |order|
    ensures k == -1 ==> forall i :: 0 <= i < to ==> !Reusable(bufs[order[i]])
    ensures k != -1 ==> 0 <= k < to && Reusable(bufs[order[k]]) && forall i :: k < i < to ==> !Reusable(bufs[order[i]])
  {
    if to == 0 then -1
    else if Reusable(bufs[order[to - 1]]) then to - 1
    else Victim(order, bufs, to - 1)
  }

  /** bget under bcache.lock: the buffer's index and the new buffers, or -1 where
      it panics. */
  function Get(order: seq<nat>, bufs: seq<Buf>, dev: nat, blockno: nat): (r: (int, seq<Buf>))
    requires Indexes(order, bufs)
    ensures |r.1| == |bufs| && -1 <= r.0 < |bufs|
  {
    var k := Cached(order, bufs, dev, blockno, 0);
    if k != -1 then
      (order[k] as int, bufs[order[k] := bufs[order[k]].(refcnt := bufs[order[k]].refcnt + 1)])
    else
      var v := Victim(order, bufs, |order|);
      if v == -1 then (-1, bufs)
      else
        var i := order[v];
        (i as int, bufs[i := Buf(dev, blockno, false, false, bufs[i].locked, 1, bufs[i].data)])
  }

  function Without(order: seq<nat>, k: nat): (r: seq<nat>)
    requires k < |order|
    ensures |r| == |order| - 1
    ensures forall i :: 0 <= i < |r| ==> r[i] == if i < k then order[i] else order[i + 1]
  {
    order[..k] + order[k + 1..]
  }

  function IndexIn(order: seq<nat>, b: nat): (k: nat)
    requires b in order
    ensures k < |order| && order[k] == b
  {
    if order[0] == b then 0 else 1 + IndexIn(order[1..], b)
  }

  /** brelse under bcache.lock. */
  function Put(order: seq<nat>, bufs: seq<Buf>, b: nat): (r: (seq<nat>, seq<Buf>))
    requires b in order && b < |bufs| && bufs[b].refcnt > 0
    ensures |r.1| == |bufs|
  {
    var bufs' := bufs[b := bufs[b].(refcnt := bufs[b].refcnt - 1)];
    (if bufs'[b].refcnt == 0 then [b] + Without(order, IndexIn(order, b)) else order, bufs')
  }

  /** Moving a buffer to the front keeps every buffer on the list, once. */
  lemma PutOrder(order: seq<nat>, b: nat)
    requires Order(order) && b in order
    ensures Order([b] + Without(order, IndexIn(order, b)))
  {
    var k := IndexIn(order, b);
    var rest := Without(order, k);
    var r := [b] + rest;
    forall x: nat | x < NBUF ensures x in r {
      var i := IndexIn(order, x);
      if i < k {
        assert r[i + 1] == x;
      } else if i > k {
        assert r[i] == x;
      } else {
        assert r[0] == x;
      }
    }
    forall i, j | 0 <= i < j < |r| ensures r[i] != r[j] {
      var p := if i == 0 then k else if i - 1 < k then i - 1 else i;
      var q := if j - 1 < k then j - 1 else j;
      assert r[i] == order[p] && r[j] == order[q] && p != q;
    }
  }

  // ---- the pointers -------------------------------------------------------

  /** The list with the head at both ends. */
  ghost function Node(order: seq<nat>, k: int): nat
    requires -1 <= k <= |order|
  {
    if 0 <= k < |order| then order[k] else HEAD
  }

  /** The k-th node and the one after it point to each other. */
  ghost predicate Joined(order: seq<nat>, next: seq<nat>, prev: seq<nat>, k: int)
    requires |next| == |prev| == NBUF + 1
  {
    -1 <= k < |order| ==>
      Node(order, k) <= NBUF && Node(order, k + 1) <= NBUF
      && next[Node(order, k)] == Node(order, k + 1) && prev[Node(order, k + 1)] == Node(order, k)
  }

  ghost predicate Ring(order: seq<nat>, next: seq<nat>, prev: seq<nat>) {
    && |next| == |prev| == NBUF + 1
    && Distinct(order) && (forall k :: 0 <= k < |order| ==> order[k] < NBUF)
    && forall k :: Joined(order, next, prev, k)
  }

  /** Taking the k-th buffer out of the ring. */
  lemma Unlink(order: seq<nat>, next: seq<nat>, prev: seq<nat>, k: nat)
    requires Ring(order, next, prev) && k < |order|
    ensures var b := order[k];
      next[b] <= NBUF && prev[b] <= NBUF
      && Ring(Without(order, k), next[prev[b] := next[b]], prev[next[b] := prev[b]])
  {
    var b := order[k];
    assert Joined(order, next, prev, k) && Joined(order, next, prev, k - 1);
    var rest, next', prev' := Without(order, k), next[prev[b] := next[b]], prev[next[b] := prev[b]];
    forall i ensures Joined(rest, next', prev', i) {
      UnlinkJoined(order, next, prev, k, i);
    }
    forall i, j | 0 <= i < j < |rest| ensures rest[i] != rest[j] {
      var p, q := if i < k then i else i + 1, if j < k then j else j + 1;
      assert rest[i] == order[p] && rest[j] == order[q];
    }
  }

  /** Distinct positions of the ring are distinct nodes. */
  lemma NodesDiffer(order: seq<nat>, i: int, j: int)
    requires Distinct(order) && (forall k :: 0 <= k < |order| ==> order[k] < NBUF)
    requires -1 <= i < |order| && -1 <= j < |order| && i != j
    ensures Node(order, i) != Node(order, j)
  {
    if 0 <= i < j {
      assert order[i] != order[j];
    } else if 0 <= j < i {
      assert order[j] != order[i];
    }
  }

  lemma UnlinkJoined(order: seq<nat>, next: seq<nat>, prev: seq<nat>, k: nat, i: int)
    requires Ring(order, next, prev) && k < |order|
    requires Joined(order, next, prev, k) && Joined(order, next, prev, k - 1)
    ensures var b := order[k];
      Joined(Without(order, k), next[prev[b] := next[b]], prev[next[b] := prev[b]], i)
  {
    var b := order[k];
    var rest := Without(order, k);
    if -1 <= i < |rest| {
      var p := if i < k then i else i + 1;                  // where the two nodes were
      var q := if i + 1 < k then i + 1 else i + 2;
      assert Node(rest, i) == Node(order, p) && Node(rest, i + 1) == Node(order, q);
      if i + 1 != k {
        assert Joined(order, next, prev, p);
        NodesDiffer(order, p, k - 1);
        NodesDiffer(order, if q == |order| then -1 else q, if k + 1 == |order| then -1 else k + 1);
      }
    }
  }

  /** Putting a buffer in behind the head. */
  lemma Link(order: seq<nat>, next: seq<nat>, prev: seq<nat>, b: nat)
    requires Ring(order, next, prev) && b < NBUF && b !in order
    ensures next[HEAD] <= NBUF
    ensures var first := next[HEAD];
      Ring([b] + order, next[b := first][HEAD := b], prev[b := HEAD][first := b])
  {
    var first := next[HEAD];
    assert Joined(order, next, prev, -1);
    var all, next', prev' := [b] + order, next[b := first][HEAD := b], prev[b := HEAD][first := b];
    forall i ensures Joined(all, next', prev', i) {
      if 1 <= i < |all| {
        assert Joined(order, next, prev, i - 1);
        assert Node(all, i) == Node(order, i - 1) && Node(all, i + 1) == Node(order, i);
        NodesDiffer(order, if i == |order| then -1 else i, 0);
      } else if i == 0 || i == -1 {
        assert Node(all, 1) == Node(order, 0);
      }
    }
    forall i, j | 0 <= i < j < |all| ensures all[i] != all[j] {
      if i > 0 {
        assert all[i] == order[i - 1] && all[j] == order[j - 1];
      } else {
        assert all[j] == order[j - 1];
      }
    }
  }

  class Cache {
    const bufs: array<Buf>
    const next: array<nat>
    const prev: array<nat>
    ghost var order: seq<nat>

    ghost predicate Valid()
      reads this, bufs, next, prev
    {
      && bufs.Length == NBUF && next.Length == prev.Length == NBUF + 1 && next != prev
      && Order(order) && Ring(order, next[..], prev[..])
    }

    /** binit. */
    constructor ()
      ensures Valid() && fresh(bufs) && fresh(next) && fresh(prev)
      ensures forall i :: 0 <= i < NBUF ==> bufs[i] == Buf(0, 0, false, false, false, 0, [])
    {
      bufs := new Buf[NBUF](_ => Buf(0, 0, false, false, false, 0, []));
      next := new nat[NBUF + 1](_ => HEAD);
      prev := new nat[NBUF + 1](_ => HEAD);
      order := [];
      new;
      for b := 0 to NBUF
        invariant bufs.Length == NBUF && next.Length == prev.Length == NBUF + 1 && next != prev
        invariant forall i :: 0 <= i < NBUF ==> bufs[i] == Buf(0, 0, false, false, false, 0, [])
        invariant Ring(order, next[..], prev[..]) && |order| == b
        invariant forall i :: 0 <= i < b ==> order[i] == b - 1 - i
      {
        Link(order, next[..], prev[..], b);
        var first := next[HEAD];
        next[b] := first;
        prev[b] := HEAD;
        prev[first] := b;
        next[HEAD] := b;
        order := [b] + order;
      }
      forall b: nat | b < NBUF ensures b in order {
        assert order[NBUF - 1 - b] == b;
      }
    }

    /** bget's critical section: the least recently used free buffer when the
        block is not cached, and a panic when there is none. */
    method BGet(dev: nat, blockno: nat) returns (r: int)
      requires Valid()
      modifies bufs
      ensures Valid() && (r, bufs[..]) == Get(order, old(bufs[..]), dev, blockno)
    {
      assert Joined(order, next[..], prev[..], -1);
      var b := next[HEAD];
      ghost var k := 0;
      while b != HEAD
        invariant 0 <= k <= NBUF && b == Node(order, k)
        invariant Cached(order, bufs[..], dev, blockno, 0) == Cached(order, bufs[..], dev, blockno, k)
        decreases NBUF - k
      {
        if bufs[b].dev == dev && bufs[b].blockno == blockno {
          bufs[b] := bufs[b].(refcnt := bufs[b].refcnt + 1);
          return b;
        }
        assert Joined(order, next[..], prev[..], k);
        b := next[b];
        k := k + 1;
      }
      r := Recycle(dev, blockno);
    }

    /** The backward scan for a buffer to recycle. */
    method Recycle(dev: nat, blockno: nat) returns (r: int)
      requires Valid() && Cached(order, bufs[..], dev, blockno, 0) == -1
      modifies bufs
      ensures Valid() && (r, bufs[..]) == Get(order, old(bufs[..]), dev, blockno)
    {
      assert Joined(order, next[..], prev[..], NBUF - 1);
      var b := prev[HEAD];
      ghost var k := NBUF - 1;
      while b != HEAD
        invariant -1 <= k < NBUF && b == Node(order, k)
        invariant Victim(order, bufs[..], NBUF) == Victim(order, bufs[..], k + 1)
        decreases k
      {
        if bufs[b].refcnt == 0 && !bufs[b].dirty {
          bufs[b] := Buf(dev, blockno, false, false, bufs[b].locked, 1, bufs[b].data);
          return b;
        }
        assert Joined(order, next[..], prev[..], k - 1);
        b := prev[b];
        k := k - 1;
      }
      return -1;
    }

    /** brelse's critical section. */
    method BRelse(b: nat)
      requires Valid() && b < NBUF && bufs[b].refcnt > 0
      modifies this`order, bufs, next, prev
      ensures Valid() && (order, bufs[..]) == Put(old(order), old(bufs[..]), b)
    {
      bufs[b] := bufs[b].(refcnt := bufs[b].refcnt - 1);
      if bufs[b].refcnt == 0 {
        MoveToFront(b);
      }
    }

    method MoveToFront(b: nat)
      requires Valid() && b < NBUF
      modifies this`order, next, prev
      ensures Valid() && order == [b] + Without(old(order), IndexIn(old(order), b))
    {
      ghost var k := IndexIn(order, b);
      Unlink(order, next[..], prev[..], k);
      PutOrder(order, b);
      prev[next[b]] := prev[b];
      next[prev[b]] := next[b];
      order := Without(order, k);
      assert b !in order;
      Link(order, next[..], prev[..], b);
      var first := next[HEAD];
      next[b] := first;
      prev[b] := HEAD;
      prev[first] := b;
      next[HEAD] := b;
      order := [b] + order;
    }
  }
}
