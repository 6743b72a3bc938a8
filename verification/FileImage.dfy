/** The block layer of fs.c as data: the free bitmap, the blocks, the inodes,
    which block every slot of every inode names, and what a file contains. */
module FileImage {

  import opened Common

  const BSIZE: nat := 512
  const NDIRECT: nat := 12
  const NINDIRECT: nat := 128       // BSIZE / sizeof(uint)
  const MAXFILE: nat := 140         // NDIRECT + NINDIRECT
  const BPB: nat := 4096            // bitmap bits per block
  const IPB: nat := 8               // inodes per block

  type Block = b: seq<Byte> | |b| == BSIZE witness seq(BSIZE, _ => 0)

  /** What fs.c needs of the super block; blocks below data hold metadata. */
  datatype Super = Super(size: nat, bmapstart: nat, inodestart: nat, data: nat)

  datatype Inode = Inode(addrs: seq<nat>, size: nat)

  datatype Img = Img(used: seq<bool>, blocks: seq<Block>, inodes: map<nat, Inode>)

  function Zeros(): Block {
    seq(BSIZE, _ => 0)
  }

  // ---- the words of an indirect block -------------------------------------

  function Word(b: Block, i: nat): (w: nat)
    requires i < NINDIRECT
    ensures w < WORD
  {
    b[4 * i] as int + 256 * (b[4 * i + 1] as int) + 65536 * (b[4 * i + 2] as int) + 16777216 * (b[4 * i + 3] as int)
  }

  function PutWord(b: Block, i: nat, v: nat): Block
    requires i < NINDIRECT && v < WORD
  {
    b[4 * i := v % 256][4 * i + 1 := v / 256 % 256][4 * i + 2 := v / 65536 % 256][4 * i + 3 := v / 16777216]
  }

  lemma PutWordAt(b: Block, i: nat, v: nat, j: nat)
    requires i < NINDIRECT && j < NINDIRECT && v < WORD
    ensures Word(PutWord(b, i, v), j) == if i == j then v else Word(b, j)
  {
    var c := PutWord(b, i, v);
    if i == j {
      assert c[4 * j] == v % 256 && c[4 * j + 1] == v / 256 % 256;
      assert c[4 * j + 2] == v / 65536 % 256 && c[4 * j + 3] == v / 16777216;
      SplitWord(v);
    } else {
      assert c[4 * j] == b[4 * j] && c[4 * j + 1] == b[4 * j + 1];
      assert c[4 * j + 2] == b[4 * j + 2] && c[4 * j + 3] == b[4 * j + 3];
    }
  }

  lemma SplitWord(v: nat)
    requires v < WORD
    ensures v == v % 256 + 256 * (v / 256 % 256) + 65536 * (v / 65536 % 256) + 16777216 * (v / 16777216)
  {
    assert v / 65536 == v / 256 / 256;
    assert v / 16777216 == v / 65536 / 256;
  }

  // ---- which block a slot of an inode names -------------------------------

  /** Slots 0..11 are the direct blocks, slot 12 the indirect table, and slot
      13 + j entry j of the table. */
  const SLOTS: nat := 141
  const TABLE: nat := 12

  predicate WellFormed(sb: Super, m: Img) {
    && |m.used| == sb.size && |m.blocks| == sb.size
    && 0 < sb.data <= sb.size < WORD
    && (forall i :: i in m.inodes ==> |m.inodes[i].addrs| == NDIRECT + 1)
  }

  function Addr(m: Img, i: nat, k: nat): nat
    requires i in m.inodes && |m.inodes[i].addrs| == NDIRECT + 1 && k < SLOTS
  {
    var a := m.inodes[i].addrs;
    if k <= TABLE then a[k]
    else if a[TABLE] == 0 || a[TABLE] >= |m.blocks| then 0
    else Word(m.blocks[a[TABLE]], k - NDIRECT - 1)
  }

  /** The slot of block bn of a file. */
  function SlotOf(bn: nat): nat {
    if bn < NDIRECT then bn else bn + 1
  }

  // ---- block conservation -------------------------------------------------

  predicate IsSlot(m: Img, i: nat, k: nat) {
    i in m.inodes && |m.inodes[i].addrs| == NDIRECT + 1 && k < SLOTS
  }

  /** A named block lies in the data area and is marked as used. */
  predicate SlotOk(sb: Super, m: Img, i: nat, k: nat) {
    IsSlot(m, i, k) && Addr(m, i, k) != 0 ==>
      sb.data <= Addr(m, i, k) < sb.size && Addr(m, i, k) < |m.used| && m.used[Addr(m, i, k)]
  }

  /** No block is named twice. */
  predicate PairOk(m: Img, i: nat, k: nat, j: nat, l: nat) {
    IsSlot(m, i, k) && IsSlot(m, j, l) && Addr(m, i, k) != 0 && Addr(m, i, k) == Addr(m, j, l) ==> i == j && k == l
  }

  ghost predicate Named(m: Img, b: nat) {
    exists i, k :: IsSlot(m, i, k) && Addr(m, i, k) == b
  }

  /** A used block is metadata or is named by a slot. */
  ghost predicate UsedOk(sb: Super, m: Img, b: nat) {
    && (b < sb.data && b < |m.used| ==> m.used[b])
    && (sb.data <= b < |m.used| && m.used[b] ==> Named(m, b))
  }

  /** The set bits of the bitmap are the metadata blocks plus the disjoint union
      of the blocks that the inodes name. */
  ghost predicate Conserved(sb: Super, m: Img) {
    && WellFormed(sb, m)
    && (forall i, k :: SlotOk(sb, m, i, k))
    && (forall i, k, j, l :: PairOk(m, i, k, j, l))
    && (forall b :: UsedOk(sb, m, b))
  }

  // ---- file contents ------------------------------------------------------

  predicate Mapped(m: Img, i: nat, bn: nat) {
    IsSlot(m, i, SlotOf(bn)) && Addr(m, i, SlotOf(bn)) != 0 && Addr(m, i, SlotOf(bn)) < |m.blocks|
  }

  /** Byte p of file i; zero when no block holds it. */
  function ByteAt(m: Img, i: nat, p: nat): Byte {
    if Mapped(m, i, p / BSIZE) then m.blocks[Addr(m, i, SlotOf(p / BSIZE))][p % BSIZE] else 0
  }

  function Content(m: Img, i: nat): (c: seq<Byte>)
    requires i in m.inodes
    ensures |c| == m.inodes[i].size
  {
    seq(m.inodes[i].size, p requires 0 <= p => ByteAt(m, i, p))
  }

  /** Files are no larger than the block map allows, and every block below the
      file size is there. */
  predicate FileOk(m: Img, i: nat) {
    i in m.inodes ==>
      && m.inodes[i].size <= MAXFILE * BSIZE
      && forall bn: nat | bn < MAXFILE :: bn * BSIZE < m.inodes[i].size ==> Mapped(m, i, bn)
  }

  ghost predicate Good(sb: Super, m: Img) {
    Conserved(sb, m) && forall i :: FileOk(m, i)
  }

  // ---- what allocation and writing do -------------------------------------

  predicate FreeBlock(sb: Super, m: Img, b: nat) {
    b < sb.size && b < |m.used| && !m.used[b]
  }

  /** balloc's block b stored in slot k of inode i itself: a direct block or the
      indirect table. */
  function WithDirect(m: Img, i: nat, k: nat, b: nat): Img
    requires IsSlot(m, i, k) && k <= TABLE && b < |m.used| && b < |m.blocks|
  {
    var ip := Inode(m.inodes[i].addrs[k := b], m.inodes[i].size);
    Img(m.used[b := true], m.blocks[b := Zeros()], m.inodes[i := ip])
  }

  /** balloc's block b stored in entry e of inode i's indirect table. */
  function WithEntry(m: Img, i: nat, e: nat, b: nat): Img
    requires i in m.inodes && |m.inodes[i].addrs| == NDIRECT + 1 && e < NINDIRECT && b < |m.used| && b < |m.blocks|
    requires m.inodes[i].addrs[TABLE] < |m.blocks| && b < WORD
  {
    var t := m.inodes[i].addrs[TABLE];
    var bs := m.blocks[b := Zeros()];
    m.(used := m.used[b := true], blocks := bs[t := PutWord(bs[t], e, b)])
  }

  function WithData(m: Img, i: nat, bn: nat, data: Block): Img
    requires Mapped(m, i, bn)
  {
    m.(blocks := m.blocks[Addr(m, i, SlotOf(bn)) := data])
  }

  function WithSize(m: Img, i: nat, size: nat): Img
    requires i in m.inodes
  {
    m.(inodes := m.inodes[i := m.inodes[i].(size := size)])
  }

  /** Slot (i, k) now names b, and every other slot names what it did. */
  ghost predicate NamesAt(m: Img, m': Img, i: nat, k: nat, b: nat, j: nat, l: nat) {
    (IsSlot(m', j, l) <==> IsSlot(m, j, l)) &&
    (IsSlot(m, j, l) ==> Addr(m', j, l) == if j == i && l == k then b else Addr(m, j, l))
  }

  lemma FreeIsUnnamed(sb: Super, m: Img, b: nat, i: nat, k: nat)
    requires SlotOk(sb, m, i, k) && UsedOk(sb, m, b) && FreeBlock(sb, m, b) && IsSlot(m, i, k)
    ensures Addr(m, i, k) != b || b == 0
    ensures b >= sb.data
  {
  }

  lemma ZeroWords(e: nat)
    requires e < NINDIRECT
    ensures Word(Zeros(), e) == 0
  {
  }

  lemma DirectNames(sb: Super, m: Img, i: nat, k: nat, b: nat, j: nat, l: nat)
    requires WellFormed(sb, m) && IsSlot(m, i, k) && k <= TABLE && FreeBlock(sb, m, b)
    requires UsedOk(sb, m, b) && SlotOk(sb, m, j, TABLE) && Addr(m, i, k) == 0
    ensures NamesAt(m, WithDirect(m, i, k, b), i, k, b, j, l)
  {
    if IsSlot(m, j, l) {
      FreeIsUnnamed(sb, m, b, j, TABLE);
      if l > TABLE { ZeroWords(l - NDIRECT - 1); }
    }
  }

  lemma EntryNames(sb: Super, m: Img, i: nat, e: nat, b: nat, j: nat, l: nat)
    requires WellFormed(sb, m) && IsSlot(m, i, TABLE) && e < NINDIRECT && FreeBlock(sb, m, b)
    requires UsedOk(sb, m, b) && SlotOk(sb, m, j, TABLE) && SlotOk(sb, m, i, TABLE) && PairOk(m, i, TABLE, j, TABLE)
    requires Addr(m, i, TABLE) != 0
    ensures NamesAt(m, WithEntry(m, i, e, b), i, NDIRECT + 1 + e, b, j, l)
  {
    FreeIsUnnamed(sb, m, b, i, TABLE);
    if IsSlot(m, j, l) {
      FreeIsUnnamed(sb, m, b, j, TABLE);
      if l > TABLE { PutWordAt(m.blocks[Addr(m, i, TABLE)], e, b, l - NDIRECT - 1); }
    }
  }

  /** Naming a free block from an empty slot keeps the bitmap accounting. */
  lemma NamingConserves(sb: Super, m: Img, m': Img, i: nat, k: nat, b: nat)
    requires Conserved(sb, m) && WellFormed(sb, m') && IsSlot(m, i, k) && FreeBlock(sb, m, b) && Addr(m, i, k) == 0
    requires m'.used == m.used[b := true]
    requires forall j, l :: NamesAt(m, m', i, k, b, j, l)
    ensures Conserved(sb, m')
  {
    assert UsedOk(sb, m, b);
    forall j, l ensures SlotOk(sb, m', j, l) {
      assert SlotOk(sb, m, j, l) && NamesAt(m, m', i, k, b, j, l);
    }
    forall j, l, g, h ensures PairOk(m', j, l, g, h) {
      assert PairOk(m, j, l, g, h) && SlotOk(sb, m, j, l) && SlotOk(sb, m, g, h);
      assert NamesAt(m, m', i, k, b, j, l) && NamesAt(m, m', i, k, b, g, h);
    }
    forall c: nat ensures UsedOk(sb, m', c) {
      assert UsedOk(sb, m, c);
      if c == b {
        assert NamesAt(m, m', i, k, b, i, k);
        assert IsSlot(m', i, k) && Addr(m', i, k) == b;
      } else if sb.data <= c < |m'.used| && m'.used[c] {
        var j, l :| IsSlot(m, j, l) && Addr(m, j, l) == c;
        assert NamesAt(m, m', i, k, b, j, l);
        assert IsSlot(m', j, l) && Addr(m', j, l) == c;
      }
    }
  }

  /** The indirect table block of inode i, or the size of the disk if none. */
  function TableOf(m: Img, i: nat): nat
    requires i in m.inodes && |m.inodes[i].addrs| == NDIRECT + 1
  {
    if m.inodes[i].addrs[TABLE] == 0 then |m.blocks| else m.inodes[i].addrs[TABLE]
  }

  /** Allocation shows in no file: the new block is all zeros. */
  lemma NamingInvisible(sb: Super, m: Img, m': Img, i: nat, k: nat, b: nat, j: nat, p: nat)
    requires WellFormed(sb, m) && WellFormed(sb, m') && IsSlot(m, i, k) && FreeBlock(sb, m, b) && Addr(m, i, k) == 0
    requires SlotOk(sb, m, j, SlotOf(p / BSIZE)) && UsedOk(sb, m, b)
    requires PairOk(m, j, SlotOf(p / BSIZE), i, TABLE)
    requires NamesAt(m, m', i, k, b, j, SlotOf(p / BSIZE))
    requires forall c :: 0 <= c < |m.blocks| && c != b && c != TableOf(m, i) ==> m'.blocks[c] == m.blocks[c]
    requires m'.blocks[b] == Zeros()
    ensures ByteAt(m', j, p) == ByteAt(m, j, p)
    ensures Mapped(m, j, p / BSIZE) ==> Mapped(m', j, p / BSIZE)
  {
    var l := SlotOf(p / BSIZE);
    if IsSlot(m, j, l) {
      FreeIsUnnamed(sb, m, b, j, l);
    }
  }

  // ---- images that agree --------------------------------------------------

  predicate SameSizes(m: Img, m': Img) {
    m'.inodes.Keys == m.inodes.Keys && forall i :: i in m.inodes ==> m'.inodes[i].size == m.inodes[i].size
  }

  ghost predicate SameBytes(m: Img, m': Img) {
    forall j: nat, p: nat :: ByteAt(m', j, p) == ByteAt(m, j, p)
  }

  ghost predicate MapGrows(m: Img, m': Img) {
    forall j: nat, bn: nat :: Mapped(m, j, bn) ==> Mapped(m', j, bn)
  }

  /** A step of the block layer that no reader can notice. */
  ghost predicate Invisible(m: Img, m': Img) {
    SameSizes(m, m') && SameBytes(m, m') && MapGrows(m, m')
  }

  lemma NamingIsInvisible(sb: Super, m: Img, m': Img, i: nat, k: nat, b: nat)
    requires Conserved(sb, m) && WellFormed(sb, m') && IsSlot(m, i, k) && FreeBlock(sb, m, b) && Addr(m, i, k) == 0
    requires SameSizes(m, m') && (forall j, l :: NamesAt(m, m', i, k, b, j, l))
    requires forall c :: 0 <= c < |m.blocks| && c != b && c != TableOf(m, i) ==> m'.blocks[c] == m.blocks[c]
    requires m'.blocks[b] == Zeros()
    ensures Invisible(m, m')
  {
    assert UsedOk(sb, m, b);
    forall j: nat, p: nat ensures ByteAt(m', j, p) == ByteAt(m, j, p) {
      var l := SlotOf(p / BSIZE);
      assert SlotOk(sb, m, j, l) && PairOk(m, j, l, i, TABLE) && NamesAt(m, m', i, k, b, j, l);
      NamingInvisible(sb, m, m', i, k, b, j, p);
    }
    forall j: nat, bn: nat ensures Mapped(m, j, bn) ==> Mapped(m', j, bn) {
      var l := SlotOf(bn);
      assert bn * BSIZE / BSIZE == bn;
      assert SlotOk(sb, m, j, l) && PairOk(m, j, l, i, TABLE) && NamesAt(m, m', i, k, b, j, l);
      NamingInvisible(sb, m, m', i, k, b, j, bn * BSIZE);
    }
  }

  /** Giving inode i a direct block or an indirect table. */
  lemma DirectKeeps(sb: Super, m: Img, i: nat, k: nat, b: nat)
    requires Conserved(sb, m) && IsSlot(m, i, k) && k <= TABLE && FreeBlock(sb, m, b) && Addr(m, i, k) == 0
    ensures Conserved(sb, WithDirect(m, i, k, b)) && Invisible(m, WithDirect(m, i, k, b))
    ensures Addr(WithDirect(m, i, k, b), i, k) == b
    ensures k == TABLE ==> forall l: nat :: TABLE < l < SLOTS ==> Addr(WithDirect(m, i, k, b), i, l) == 0
  {
    var m' := WithDirect(m, i, k, b);
    assert UsedOk(sb, m, b);
    forall j, l ensures NamesAt(m, m', i, k, b, j, l) {
      assert SlotOk(sb, m, j, TABLE);
      DirectNames(sb, m, i, k, b, j, l);
    }
    NamingConserves(sb, m, m', i, k, b);
    NamingIsInvisible(sb, m, m', i, k, b);
    assert NamesAt(m, m', i, k, b, i, k);
    if k == TABLE {
      forall l: nat | TABLE < l < SLOTS ensures Addr(m', i, l) == 0 {
        assert NamesAt(m, m', i, k, b, i, l);
      }
    }
  }

  /** Giving inode i a block through its indirect table. */
  lemma EntryKeeps(sb: Super, m: Img, i: nat, e: nat, b: nat)
    requires Conserved(sb, m) && IsSlot(m, i, TABLE) && e < NINDIRECT && FreeBlock(sb, m, b)
    requires Addr(m, i, TABLE) != 0 && Addr(m, i, NDIRECT + 1 + e) == 0
    ensures Addr(m, i, TABLE) < |m.blocks|
    ensures Conserved(sb, WithEntry(m, i, e, b)) && Invisible(m, WithEntry(m, i, e, b))
    ensures Addr(WithEntry(m, i, e, b), i, NDIRECT + 1 + e) == b
  {
    var k := NDIRECT + 1 + e;
    assert UsedOk(sb, m, b) && SlotOk(sb, m, i, TABLE);
    FreeIsUnnamed(sb, m, b, i, TABLE);
    var m' := WithEntry(m, i, e, b);
    forall j, l ensures NamesAt(m, m', i, k, b, j, l) {
      assert SlotOk(sb, m, j, TABLE) && PairOk(m, i, TABLE, j, TABLE);
      EntryNames(sb, m, i, e, b, j, l);
    }
    NamingConserves(sb, m, m', i, k, b);
    NamingIsInvisible(sb, m, m', i, k, b);
    assert NamesAt(m, m', i, k, b, i, k);
  }

  // ---- writing a data block -----------------------------------------------

  lemma DataNames(sb: Super, m: Img, i: nat, bn: nat, data: Block, j: nat, l: nat)
    requires WellFormed(sb, m) && Mapped(m, i, bn) && IsSlot(m, j, l)
    requires PairOk(m, i, SlotOf(bn), j, TABLE)
    ensures IsSlot(WithData(m, i, bn, data), j, l) && Addr(WithData(m, i, bn, data), j, l) == Addr(m, j, l)
  {
  }

  lemma DataKeeps(sb: Super, m: Img, i: nat, bn: nat, data: Block)
    requires Conserved(sb, m) && Mapped(m, i, bn)
    ensures Conserved(sb, WithData(m, i, bn, data)) && SameSizes(m, WithData(m, i, bn, data))
    ensures MapGrows(m, WithData(m, i, bn, data))
    ensures forall j: nat, p: nat :: ByteAt(WithData(m, i, bn, data), j, p)
              == if j == i && p / BSIZE == bn then data[p % BSIZE] else ByteAt(m, j, p)
  {
    var m' := WithData(m, i, bn, data);
    forall j: nat, l: nat ensures IsSlot(m, j, l) ==> Addr(m', j, l) == Addr(m, j, l) {
      assert PairOk(m, i, SlotOf(bn), j, TABLE);
      if IsSlot(m, j, l) { DataNames(sb, m, i, bn, data, j, l); }
    }
    SameAddrs(sb, m, m');
    forall j: nat, p: nat
      ensures ByteAt(m', j, p) == if j == i && p / BSIZE == bn then data[p % BSIZE] else ByteAt(m, j, p)
    {
      assert PairOk(m, i, SlotOf(bn), j, SlotOf(p / BSIZE));
      assert IsSlot(m, j, SlotOf(p / BSIZE)) <==> IsSlot(m', j, SlotOf(p / BSIZE));
    }
    forall j: nat, b: nat ensures Mapped(m, j, b) ==> Mapped(m', j, b) {
    }
  }

  /** Conservation only looks at the bitmap and at what the slots name. */
  lemma SameAddrs(sb: Super, m: Img, m': Img)
    requires Conserved(sb, m) && WellFormed(sb, m') && m'.used == m.used
    requires forall j: nat, l: nat :: IsSlot(m', j, l) ==> IsSlot(m, j, l)
    requires forall j: nat, l: nat :: IsSlot(m, j, l) ==> IsSlot(m', j, l) && Addr(m', j, l) == Addr(m, j, l)
    ensures Conserved(sb, m')
  {
    forall j, l ensures SlotOk(sb, m', j, l) {
      assert SlotOk(sb, m, j, l);
    }
    forall j, l, g, h ensures PairOk(m', j, l, g, h) {
      assert PairOk(m, j, l, g, h);
    }
    forall c: nat ensures UsedOk(sb, m', c) {
      assert UsedOk(sb, m, c);
      if Named(m, c) {
        var j, l :| IsSlot(m, j, l) && Addr(m, j, l) == c;
        assert IsSlot(m', j, l) && Addr(m', j, l) == c;
      }
    }
  }

  lemma SizeKeeps(sb: Super, m: Img, i: nat, size: nat)
    requires Conserved(sb, m) && i in m.inodes
    ensures Conserved(sb, WithSize(m, i, size))
    ensures SameBytes(m, WithSize(m, i, size)) && MapGrows(m, WithSize(m, i, size))
  {
    var m' := WithSize(m, i, size);
    assert forall j: nat, l: nat :: IsSlot(m, j, l) <==> IsSlot(m', j, l);
    SameAddrs(sb, m, m');
  }
}
