/** The ring buffer of pipe.c: 512 bytes between two 32-bit counters that wrap. */
module PipeRing {

  import opened Common

  const PIPESIZE: nat := 512

  datatype Ring = Ring(data: seq<Byte>, nread: nat, nwrite: nat)

  predicate Shaped(r: Ring) {
    |r.data| == PIPESIZE && r.nread < WORD && r.nwrite < WORD
  }

  // ---- the arithmetic of a round ------------------------------------------

  predicate Full(r: Ring) {
    r.nwrite == (r.nread + PIPESIZE) % WORD
  }

  predicate Empty(r: Ring) {
    r.nread == r.nwrite
  }

  function Min(a: nat, b: nat): nat {
    if a < b then a else b
  }

  /** Bytes that the next round of a write of left bytes puts in. */
  function WriteSize(r: Ring, left: nat): (n: nat)
    ensures n <= left
  {
    Min((r.nread + PIPESIZE - r.nwrite) % WORD, left)
  }

  /** Bytes that a read of n bytes takes out. */
  function ReadSize(r: Ring, n: nat): (k: nat)
    ensures k <= n
  {
    Min((r.nwrite - r.nread) % WORD, n)
  }

  /** How many of bytes go before the end of the ring. */
  function Chunk1(counter: nat, bytes: nat): (c: nat)
    ensures c <= bytes && counter % PIPESIZE + c <= PIPESIZE
    ensures bytes <= PIPESIZE ==> bytes - c <= counter % PIPESIZE
  {
    if bytes > PIPESIZE - counter % PIPESIZE then PIPESIZE - counter % PIPESIZE else bytes
  }

  function CopyIn(data: seq<Byte>, at: nat, src: seq<Byte>): (d: seq<Byte>)
    requires at + |src| <= |data|
    ensures |d| == |data|
    ensures forall k :: 0 <= k < |d| ==> d[k] == if at <= k < at + |src| then src[k - at] else data[k]
  {
    data[..at] + src + data[at + |src|..]
  }

  /** One round of pipewrite with the bytes src; ok1 and ok2 say whether the two
      user copies succeed. */
  function Put(r: Ring, src: seq<Byte>, ok1: bool, ok2: bool): (res: (Ring, bool))
    requires Shaped(r) && |src| <= PIPESIZE
    ensures Shaped(res.0) && res.0.nread == r.nread
  {
    var c1 := Chunk1(r.nwrite, |src|);
    if c1 > 0 && !ok1 then (r, false)
    else
      var d1 := CopyIn(r.data, r.nwrite % PIPESIZE, src[..c1]);
      if |src| - c1 > 0 && !ok2 then (r.(data := d1), false)
      else (Ring(CopyIn(d1, 0, src[c1..]), r.nread, (r.nwrite + |src|) % WORD), true)
  }

  /** Both user copies of a read of bytes succeed, as far as they are made. */
  predicate Copied(counter: nat, bytes: nat, ok1: bool, ok2: bool) {
    var c1 := Chunk1(counter, bytes);
    (c1 > 0 ==> ok1) && (bytes - c1 > 0 ==> ok2)
  }

  /** The bytes that piperead copies out. */
  function Front(r: Ring, bytes: nat): (out: seq<Byte>)
    requires Shaped(r) && bytes <= PIPESIZE
    ensures |out| == bytes
  {
    var c1 := Chunk1(r.nread, bytes);
    r.data[r.nread % PIPESIZE..r.nread % PIPESIZE + c1] + r.data[..bytes - c1]
  }

  function Drop(r: Ring, bytes: nat): Ring {
    r.(nread := (r.nread + bytes) % WORD)
  }

  // ---- the stream the ring stands for -------------------------------------

  /** Of the bytes published so far the first con have been consumed, and the
      ring holds the others. */
  ghost predicate Holds(r: Ring, published: seq<Byte>, con: nat) {
    && Shaped(r) && con <= |published| <= con + PIPESIZE
    && r.nread == con % WORD && r.nwrite == |published| % WORD
    && (forall k :: con <= k < |published| ==> SlotHas(r.data, published, k))
  }

  ghost predicate SlotHas(data: seq<Byte>, published: seq<Byte>, k: nat)
    requires |data| == PIPESIZE && k < |published|
  {
    data[k % PIPESIZE] == published[k]
  }

  lemma WrapSlot(x: nat)
    ensures (x % WORD) % PIPESIZE == x % PIPESIZE
  {
    assert x == WORD * (x / WORD) + x % WORD;
    assert x == PIPESIZE * (0x80_0000 * (x / WORD)) + x % WORD;
    ModShift(0x80_0000 * (x / WORD), x % WORD);
  }

  lemma ModShift(q: nat, x: nat)
    ensures (PIPESIZE * q + x) % PIPESIZE == x % PIPESIZE
  {
    assert PIPESIZE * q + x == PIPESIZE * (q + x / PIPESIZE) + x % PIPESIZE;
  }

  lemma WrapDiff(a: nat, b: nat)
    requires a <= b < a + WORD
    ensures (b % WORD - a % WORD) % WORD == b - a
  {
    var q := b / WORD - a / WORD;
    assert b - a == WORD * q + (b % WORD - a % WORD);
  }

  lemma WrapAdd(a: nat, n: nat)
    ensures (a % WORD + n) % WORD == (a + n) % WORD
  {
    assert a + n == WORD * (a / WORD) + (a % WORD + n);
  }

  /** The counters measure the occupancy, wrapped or not. */
  lemma Occupancy(r: Ring, published: seq<Byte>, con: nat)
    requires Holds(r, published, con)
    ensures (r.nwrite - r.nread) % WORD == |published| - con
    ensures (r.nread + PIPESIZE - r.nwrite) % WORD == PIPESIZE - (|published| - con)
    ensures Full(r) <==> |published| == con + PIPESIZE
    ensures Empty(r) <==> |published| == con
  {
    WordsApart(con, |published|);
  }

  lemma WordsApart(con: nat, pub: nat)
    requires con <= pub <= con + PIPESIZE
    ensures (pub % WORD - con % WORD) % WORD == pub - con
    ensures (con % WORD + PIPESIZE - pub % WORD) % WORD == PIPESIZE - (pub - con)
    ensures pub % WORD == (con % WORD + PIPESIZE) % WORD <==> pub == con + PIPESIZE
    ensures con % WORD == pub % WORD <==> pub == con
  {
    WrapDiff(con, pub);
    WrapDiff(pub, con + PIPESIZE);
    WrapAdd(con, PIPESIZE);
    Room(con % WORD, PIPESIZE, pub % WORD);
  }

  lemma Room(a: nat, n: nat, b: nat)
    ensures (a + n - b) % WORD == ((a + n) % WORD - b) % WORD
  {
    assert a + n - b == WORD * ((a + n) / WORD) + ((a + n) % WORD - b);
  }

  /** Two positions of the stream less than a ring apart use different slots. */
  lemma SlotsDiffer(j: nat, k: nat)
    requires j < k < j + PIPESIZE
    ensures j % PIPESIZE != k % PIPESIZE
  {
  }

  /** The slot i positions after x, before and after the end of the ring. */
  lemma SlotAfter(x: nat, i: nat)
    requires i <= PIPESIZE
    ensures (x + i) % PIPESIZE == if x % PIPESIZE + i < PIPESIZE then x % PIPESIZE + i
                                  else if i < PIPESIZE || x % PIPESIZE > 0 then x % PIPESIZE + i - PIPESIZE else 0
  {
    ModShift(x / PIPESIZE, x % PIPESIZE + i);
    assert x + i == PIPESIZE * (x / PIPESIZE) + (x % PIPESIZE + i);
  }

  /** A round of pipewrite appends its bytes to the stream, or, when a user copy
      fails, leaves the stream as it was. */
  lemma PutPublishes(r: Ring, published: seq<Byte>, con: nat, src: seq<Byte>, ok1: bool, ok2: bool)
    requires Holds(r, published, con) && |published| + |src| <= con + PIPESIZE
    ensures var (r', ok) := Put(r, src, ok1, ok2);
      Holds(r', if ok then published + src else published, con)
    ensures ok1 && ok2 ==> Put(r, src, ok1, ok2).1
  {
    var (r', ok) := Put(r, src, ok1, ok2);
    var stream := if ok then published + src else published;
    WrapAdd(|published|, |src|);
    forall k | con <= k < |stream| ensures SlotHas(r'.data, stream, k) {
      if k < |published| {
        KeepsSlot(r, published, con, src, ok1, ok2, k);
      } else {
        FillsSlot(r, published, con, src, ok1, ok2, k - |published|);
      }
    }
  }

  /** What is still to be read stays where it is. */
  lemma KeepsSlot(r: Ring, published: seq<Byte>, con: nat, src: seq<Byte>, ok1: bool, ok2: bool, k: nat)
    requires Holds(r, published, con) && |published| + |src| <= con + PIPESIZE && con <= k < |published|
    ensures SlotHas(Put(r, src, ok1, ok2).0.data, published, k)
  {
    assert SlotHas(r.data, published, k);
    WrapSlot(|published|);
    var c1, slot, at := Chunk1(r.nwrite, |src|), k % PIPESIZE, r.nwrite % PIPESIZE;
    if |src| > 0 {
      var d := if at <= slot < at + c1 then slot - at else if slot < |src| - c1 then c1 + slot else 0;
      SlotAfter(|published|, d);
      SlotsDiffer(k, |published| + d);
    }
    PutElsewhere(r, src, ok1, ok2, slot);
  }

  lemma PutElsewhere(r: Ring, src: seq<Byte>, ok1: bool, ok2: bool, slot: nat)
    requires Shaped(r) && |src| <= PIPESIZE && slot < PIPESIZE
    requires var c1, at := Chunk1(r.nwrite, |src|), r.nwrite % PIPESIZE;
      !(at <= slot < at + c1) && !(slot < |src| - c1)
    ensures Put(r, src, ok1, ok2).0.data[slot] == r.data[slot]
  {
  }

  lemma FillsSlot(r: Ring, published: seq<Byte>, con: nat, src: seq<Byte>, ok1: bool, ok2: bool, i: nat)
    requires Holds(r, published, con) && |published| + |src| <= con + PIPESIZE && i < |src| && Put(r, src, ok1, ok2).1
    ensures SlotHas(Put(r, src, ok1, ok2).0.data, published + src, |published| + i)
  {
    WrapSlot(|published|);
    SlotAfter(|published|, i);
    var c1, slot := Chunk1(r.nwrite, |src|), (|published| + i) % PIPESIZE;
    assert if i < c1 then slot == r.nwrite % PIPESIZE + i else slot == i - c1;
    PutAt(r, src, ok1, ok2, i);
  }

  /** Where the bytes of a round are put. */
  lemma PutAt(r: Ring, src: seq<Byte>, ok1: bool, ok2: bool, i: nat)
    requires Shaped(r) && |src| <= PIPESIZE && i < |src| && Put(r, src, ok1, ok2).1
    ensures var c1 := Chunk1(r.nwrite, |src|);
      Put(r, src, ok1, ok2).0.data[if i < c1 then r.nwrite % PIPESIZE + i else i - c1] == src[i]
  {
  }

  /** A read takes the next bytes of the stream. */
  lemma FrontIsNext(r: Ring, published: seq<Byte>, con: nat, bytes: nat)
    requires Holds(r, published, con) && con + bytes <= |published|
    ensures Front(r, bytes) == published[con..con + bytes]
    ensures Holds(Drop(r, bytes), published, con + bytes)
  {
    WrapAdd(con, bytes);
    forall i | 0 <= i < bytes ensures Front(r, bytes)[i] == published[con + i] {
      assert SlotHas(r.data, published, con + i);
      WrapSlot(con);
      SlotAfter(con, i);
    }
    assert Front(r, bytes) == published[con..con + bytes];
    forall k | con + bytes <= k < |published| ensures SlotHas(r.data, published, k) {
    }
  }

  // ---- the buffer itself --------------------------------------------------

  class Buffer {
    const data: array<Byte>
    var nread: nat
    var nwrite: nat

    ghost function View(): Ring
      reads this, data
    {
      Ring(data[..], nread, nwrite)
    }

    constructor ()
      ensures Shaped(View()) && Holds(View(), [], 0) && fresh(data)
    {
      data := new Byte[PIPESIZE];
      nread, nwrite := 0, 0;
    }

    /** memmove into the ring. */
    method Copy(at: nat, src: seq<Byte>)
      requires at + |src| <= data.Length
      modifies data
      ensures data[..] == CopyIn(old(data[..]), at, src)
    {
      for i := 0 to |src|
        invariant forall k :: 0 <= k < data.Length ==> data[k] == if at <= k < at + i then src[k - at] else old(data[k])
      {
        data[at + i] := src[i];
      }
    }

    /** The two user copies of pipewrite: c1 bytes at slot at, the others at slot 0. */
    method TwoPieces(at: nat, c1: nat, src: seq<Byte>, ok1: bool, ok2: bool) returns (done: bool)
      requires c1 <= |src| && at + c1 <= data.Length && |src| - c1 <= data.Length
      modifies data
      ensures done == ((c1 > 0 ==> ok1) && (|src| - c1 > 0 ==> ok2))
      ensures data[..] ==
        if c1 > 0 && !ok1 then old(data[..])
        else
          var d1 := CopyIn(old(data[..]), at, src[..c1]);
          if |src| - c1 > 0 && !ok2 then d1 else CopyIn(d1, 0, src[c1..])
    {
      if c1 > 0 {
        if !ok1 {
          return false;
        }
        Copy(at, src[..c1]);
      }
      assert data[..] == CopyIn(old(data[..]), at, src[..c1]);
      if |src| - c1 > 0 {
        if !ok2 {
          return false;
        }
        Copy(0, src[c1..]);
      } else {
        assert CopyIn(data[..], 0, src[c1..]) == data[..];
      }
      return true;
    }

    /** The body of pipewrite's loop once there is room: bytes of addr from i on,
        in one or two pieces.  Returns the number of bytes, or none when a user
        copy fails. */
    method WriteRound(addr: seq<Byte>, i: nat, ok1: bool, ok2: bool) returns (done: bool, bytes: nat)
      requires Shaped(View()) && i <= |addr| && WriteSize(View(), |addr| - i) <= PIPESIZE
      modifies this`nwrite, data
      ensures bytes == WriteSize(old(View()), |addr| - i) && i + bytes <= |addr|
      ensures (View(), done) == Put(old(View()), addr[i..i + bytes], ok1, ok2)
    {
      bytes := Min((nread + PIPESIZE - nwrite) % WORD, |addr| - i);
      done := TwoPieces(nwrite % PIPESIZE, Chunk1(nwrite, bytes), addr[i..i + bytes], ok1, ok2);
      if done {
        nwrite := (nwrite + bytes) % WORD;
      }
    }

    /** piperead once there are bytes or no writers: out is what user memory has
        received. */
    method ReadRound(n: nat, ok1: bool, ok2: bool) returns (done: bool, out: seq<Byte>)
      requires Shaped(View()) && ReadSize(View(), n) <= PIPESIZE
      modifies this`nread
      ensures done == Copied(old(nread), ReadSize(old(View()), n), ok1, ok2)
      ensures done ==> out == old(Front(View(), ReadSize(View(), n)))
      ensures done ==> View() == old(Drop(View(), ReadSize(View(), n)))
      ensures !done ==> View() == old(View())
    {
      var bytes := Min((nwrite - nread) % WORD, n);
      var chunk1 := if bytes > PIPESIZE - nread % PIPESIZE then PIPESIZE - nread % PIPESIZE else bytes;
      var chunk2 := bytes - chunk1;
      out := [];
      if chunk1 > 0 {
        if !ok1 {
          return false, out;
        }
        out := data[nread % PIPESIZE..nread % PIPESIZE + chunk1];
      }
      if chunk2 > 0 {
        if !ok2 {
          return false, out;
        }
        out := out + data[..chunk2];
      }
      nread := (nread + bytes) % WORD;
      done := true;
    }
  }
}
