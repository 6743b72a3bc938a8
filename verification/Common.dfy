/** What several parts share: the sizes of param.h, machine words and bytes, and
    thread names. */
module Common {

  const NPROC: nat := 64
  const MAXOPBLOCKS: nat := 10
  const LOGSIZE: nat := 30            // MAXOPBLOCKS*3
  const NBUF: nat := 30               // MAXOPBLOCKS*3
  const WORD: nat := 0x1_0000_0000    // the values of a uint

  type Byte = x: int | 0 <= x < 256

  type Tid = nat

  /** Distinct members of a set are no more than the set has. */
  lemma {:induction false} DistinctInSet(q: seq<Tid>, ts: set<Tid>)
    requires forall i, j :: 0 <= i < j < |q| ==> q[i] != q[j]
    requires forall i :: 0 <= i < |q| ==> q[i] in ts
    ensures |q| <= |ts|
  {
    if q != [] {
      var n := |q| - 1;
      DistinctInSet(q[..n], ts - {q[n]});
    }
  }
}
