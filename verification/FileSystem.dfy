/** balloc, bfree, bmap, itrunc, readi, writei of fs.c and filewrite of file.c,
    in place.  logged collects the block numbers passed to log_write. */
module FileSystem {
  import opened Common
  import opened FileImage

  datatype Io = Failed | Panicked | Done(n: nat)

  /** The bitmap block that holds the bit of block b. */
  function BBlock(sb: Super, b: nat): nat {
    b / BPB + sb.bmapstart
  }

  /** The block that holds inode i. */
  function IBlock(sb: Super, i: nat): nat {
    i / IPB + sb.inodestart
  }

  /** Bytes off .. off + |src| of c replaced by src, c growing if need be. */
  function Overwrite(c: seq<Byte>, off: nat, src: seq<Byte>): (r: seq<Byte>)
    requires off <= |c|
  {
    c[..off] + src + if off + |src| < |c| then c[off + |src|..] else []
  }

  predicate Aligned(pos: nat) {
    pos % BSIZE == 0
  }

  /** Bytes pos .. pos + k lie in one block. */
  predicate InOneBlock(pos: nat, k: nat) {
    0 < k <= BSIZE - pos % BSIZE
  }

  /** min(n - tot, BSIZE - off%BSIZE): how much of what is left falls in the
      block of position pos. */
  function PartLen(pos: nat, left: nat): (m: nat)
    requires left > 0
    ensures m <= left && InOneBlock(pos, m) && (m == left || Aligned(pos + m))
  {
    if left < BSIZE - pos % BSIZE then left else BSIZE - pos % BSIZE
  }

  /** How many blocks the bytes off .. off + n touch. */
  function Blocks(off: nat, n: nat): nat {
    if n == 0 then 0 else (off + n - 1) / BSIZE - off / BSIZE + 1
  }

  /** The new bytes of a range appear, all other bytes of all files stay. */
  ghost predicate Wrote(m: Img, m': Img, i: nat, off: nat, src: seq<Byte>) {
    forall j: nat, p: nat ::
      ByteAt(m', j, p) == if j == i && off <= p < off + |src| then src[p - off] else ByteAt(m, j, p)
  }

  class Fs {
    const sb: Super
    var used: seq<bool>
    var blocks: seq<Block>
    var inodes: map<nat, Inode>
    var logged: set<nat>

    ghost function View(): Img
      reads this
    {
      Img(used, blocks, inodes)
    }

    constructor (sb: Super, m: Img)
      ensures this.sb == sb && View() == m && logged == {}
    {
      this.sb, used, blocks, inodes, logged := sb, m.used, m.blocks, m.inodes, {};
    }

    method BAlloc() returns (ok: bool, b: nat)
      requires WellFormed(sb, View())
      modifies this`used, this`blocks, this`logged
      ensures ok ==> FreeBlock(sb, old(View()), b) && forall c :: 0 <= c < b ==> old(used)[c]
      ensures ok ==> used == old(used)[b := true] && blocks == old(blocks)[b := Zeros()]
      ensures ok ==> logged == old(logged) + {BBlock(sb, b), b}
      ensures !ok ==> View() == old(View()) && logged == old(logged) && forall c :: 0 <= c < sb.size ==> used[c]
    {
      var base := 0;
      while base < sb.size
        invariant View() == old(View()) && logged == old(logged) && base % BPB == 0
        invariant forall c :: 0 <= c < base && c < sb.size ==> used[c]
      {
        var bi := 0;
        while bi < BPB && base + bi < sb.size
          invariant 0 <= bi <= BPB && View() == old(View()) && logged == old(logged)
          invariant forall c :: 0 <= c < base + bi && c < sb.size ==> used[c]
        {
          if !used[base + bi] {
            b := base + bi;
            used := used[b := true];
            logged := logged + {BBlock(sb, base)};
            assert BBlock(sb, base) == BBlock(sb, b);
            blocks := blocks[b := Zeros()];
            logged := logged + {b};
            return true, b;
          }
          bi := bi + 1;
        }
        base := base + BPB;
      }
      return false, 0;
    }

    /** false is the panic "freeing free block". */
    method BFree(b: nat) returns (ok: bool)
      requires b < |used|
      modifies this`used, this`logged
      ensures ok == old(used)[b]
      ensures used == old(used)[b := false]
      ensures ok ==> logged == old(logged) + {BBlock(sb, b)}
      ensures !ok ==> logged == old(logged)
    {
      if !used[b] {
        assert used == used[b := false];
        return false;
      }
      used := used[b := false];
      logged := logged + {BBlock(sb, b)};
      return true;
    }

    /** bmap.  bits are the bitmap blocks that it logs. */
    method BMap(i: nat, bn: nat) returns (ok: bool, addr: nat, ghost bits: set<nat>)
      requires Conserved(sb, View()) && i in inodes
      modifies this`used, this`blocks, this`inodes, this`logged
      ensures !ok && bn < MAXFILE ==> forall c :: 0 <= c < |used| ==> used[c]
      ensures ok ==> Conserved(sb, View()) && Invisible(old(View()), View())
      ensures ok ==> bn < MAXFILE && Mapped(View(), i, bn) && addr == Addr(View(), i, SlotOf(bn))
      ensures old(Mapped(View(), i, bn)) ==> ok && View() == old(View()) && logged == old(logged) && bits == {}
      ensures ok && !old(Mapped(View(), i, bn)) ==>
        logged == old(logged) + bits + {addr} + if bn < NDIRECT then {} else {inodes[i].addrs[TABLE]}
      ensures ok ==> |bits| <= (if old(Mapped(View(), i, bn)) then 0 else 1) +
                               (if inodes[i].addrs[TABLE] == old(inodes[i].addrs[TABLE]) then 0 else 1)
      ensures ok && old(inodes[i].addrs[TABLE]) != 0 ==> inodes[i].addrs[TABLE] == old(inodes[i].addrs[TABLE])
    {
      ghost var m := View();
      bits := {};
      if bn < NDIRECT {
        assert SlotOk(sb, m, i, bn);
        addr := inodes[i].addrs[bn];
        if addr == 0 {
          ok, addr := BAlloc();
          if !ok { return; }
          inodes := inodes[i := inodes[i].(addrs := inodes[i].addrs[bn := addr])];
          bits := {BBlock(sb, addr)};
          assert View() == WithDirect(m, i, bn, addr);
          DirectKeeps(sb, m, i, bn, addr);
          assert UsedOk(sb, m, addr);
        }
        return true, addr, bits;
      }
      var e := bn - NDIRECT;
      if e >= NINDIRECT {
        return false, 0, bits;
      }
      ok, addr, bits := BMapEntry(i, e);
    }

    /** bmap's step "load indirect block, allocating if necessary". */
    method LoadTable(i: nat) returns (ok: bool, t: nat, ghost bits: set<nat>)
      requires Conserved(sb, View()) && i in inodes
      modifies this`used, this`blocks, this`inodes, this`logged
      ensures !ok ==> forall c :: 0 <= c < |used| ==> used[c]
      ensures ok ==> Conserved(sb, View()) && Invisible(old(View()), View())
      ensures ok ==> t == inodes[i].addrs[TABLE] && 0 < t < |blocks|
      ensures old(inodes[i].addrs[TABLE]) != 0 ==> ok && View() == old(View()) && logged == old(logged) && bits == {}
      ensures ok && old(inodes[i].addrs[TABLE]) == 0 ==>
        && logged == old(logged) + bits + {t} && |bits| <= 1
        && forall l: nat :: TABLE < l < SLOTS ==> Addr(View(), i, l) == 0
    {
      ghost var m := View();
      bits := {};
      assert SlotOk(sb, m, i, TABLE);
      t := inodes[i].addrs[TABLE];
      if t == 0 {
        ok, t := BAlloc();
        if !ok { return false, 0, bits; }
        inodes := inodes[i := inodes[i].(addrs := inodes[i].addrs[TABLE := t])];
        bits := {BBlock(sb, t)};
        assert View() == WithDirect(m, i, TABLE, t);
        DirectKeeps(sb, m, i, TABLE, t);
        assert UsedOk(sb, m, t);
      }
      ok := true;
    }

    /** The indirect half of bmap. */
    method BMapEntry(i: nat, e: nat) returns (ok: bool, addr: nat, ghost bits: set<nat>)
      requires Conserved(sb, View()) && i in inodes && e < NINDIRECT
      modifies this`used, this`blocks, this`inodes, this`logged
      ensures !ok ==> forall c :: 0 <= c < |used| ==> used[c]
      ensures ok ==> Conserved(sb, View()) && Invisible(old(View()), View())
      ensures ok ==> Mapped(View(), i, NDIRECT + e) && addr == Addr(View(), i, SlotOf(NDIRECT + e))
      ensures old(Mapped(View(), i, NDIRECT + e)) ==> ok && View() == old(View()) && logged == old(logged) && bits == {}
      ensures ok && !old(Mapped(View(), i, NDIRECT + e)) ==>
        logged == old(logged) + bits + {addr} + {inodes[i].addrs[TABLE]}
      ensures ok ==> |bits| <= (if old(Mapped(View(), i, NDIRECT + e)) then 0 else 1) +
                               (if inodes[i].addrs[TABLE] == old(inodes[i].addrs[TABLE]) then 0 else 1)
      ensures ok && old(inodes[i].addrs[TABLE]) != 0 ==> inodes[i].addrs[TABLE] == old(inodes[i].addrs[TABLE])
    {
      ghost var m := View();
      assert SlotOk(sb, m, i, NDIRECT + 1 + e);
      var t;
      ok, t, bits := LoadTable(i);
      if !ok { return false, 0, bits; }
      ghost var m1 := View();
      assert SlotOk(sb, m1, i, NDIRECT + 1 + e);
      addr := Word(blocks[t], e);
      assert addr == Addr(m1, i, NDIRECT + 1 + e);
      if addr == 0 {
        ghost var bit;
        ok, addr, bit := AddEntry(i, e, t);
        bits := bits + {bit};
        if ok {
          InvisibleTrans(m, m1, View());
        }
      }
    }

    /** A new block for entry e of the table t of inode i. */
    method AddEntry(i: nat, e: nat, t: nat) returns (ok: bool, addr: nat, ghost bit: nat)
      requires Conserved(sb, View()) && i in inodes && e < NINDIRECT
      requires t == Addr(View(), i, TABLE) && t != 0 && Addr(View(), i, NDIRECT + 1 + e) == 0
      modifies this`used, this`blocks, this`logged
      ensures !ok ==> forall c :: 0 <= c < |used| ==> used[c]
      ensures ok ==> Conserved(sb, View()) && Invisible(old(View()), View())
      ensures ok ==> Mapped(View(), i, NDIRECT + e) && addr == Addr(View(), i, SlotOf(NDIRECT + e))
      ensures ok ==> logged == old(logged) + {bit} + {addr} + {t}
    {
      ghost var m1 := View();
      assert SlotOk(sb, m1, i, TABLE) && SlotOk(sb, m1, i, NDIRECT + 1 + e);
      ok, addr := BAlloc();
      bit := BBlock(sb, addr);
      if ok {
        EntryKeeps(sb, m1, i, e, addr);
        blocks := blocks[t := PutWord(blocks[t], e, addr)];
        logged := logged + {t};
        assert View() == WithEntry(m1, i, e, addr);
        assert UsedOk(sb, m1, addr);
      }
    }

    /** One turn of writei's loop: the part of a write that falls in one block.
        bits are the bitmap blocks it logs. */
    method WritePart(i: nat, off: nat, src: seq<Byte>) returns (ok: bool, ghost bits: set<nat>, ghost addr: nat)
      requires Conserved(sb, View()) && i in inodes
      requires InOneBlock(off, |src|) && off + |src| <= MAXFILE * BSIZE
      modifies this`used, this`blocks, this`inodes, this`logged
      ensures !ok ==> forall c :: 0 <= c < |used| ==> used[c]
      ensures ok ==> PartDone(sb, old(View()), View(), i, off, src)
      ensures ok ==> PartLogged(old(logged), logged, old(inodes[i].addrs[TABLE]), inodes[i].addrs[TABLE],
                                bits, addr, old(Mapped(View(), i, off / BSIZE)))
    {
      var bn, o := off / BSIZE, off % BSIZE;
      ghost var m := View();
      var a;
      ok, a, bits := BMap(i, bn);
      addr := a;
      if !ok { return; }
      ghost var m1 := View();
      var prev := blocks[a];
      var data: Block := prev[..o] + src + prev[o + |src|..];
      blocks := blocks[a := data];
      logged := logged + {a};
      assert View() == WithData(m1, i, bn, data);
      DataKeeps(sb, m1, i, bn, data);
      WroteFromBlock(m, m1, View(), i, off, src, data);
      assert SlotOk(sb, View(), i, TABLE);
    }

    method WriteI(i: nat, src: seq<Byte>, off: nat) returns (r: Io)
      requires Good(sb, View()) && i in inodes && off < WORD && |src| < WORD
      modifies this`used, this`blocks, this`inodes, this`logged
      ensures r.Failed? <==> off > old(inodes[i].size) || off + |src| > MAXFILE * BSIZE
      ensures r.Failed? ==> View() == old(View()) && logged == old(logged)
      ensures r.Panicked? ==> forall c :: 0 <= c < |used| ==> used[c]
      ensures r.Done? ==> r.n == |src| && FileHolds(sb, old(View()), View(), i, off, src)
      ensures r.Done? ==> |logged - old(logged)| <= LogBound(off, |src|)
    {
      var n := |src|;
      Wraps(off, n);
      if off > inodes[i].size || (off + n) % WORD < off {
        return Failed;
      }
      if off + n > MAXFILE * BSIZE {
        return Failed;
      }
      ghost var m0, l0, t0 := View(), logged, inodes[i].addrs[TABLE];
      ghost var data, bits, news;
      var ok;
      ok, data, bits, news := WriteLoop(i, src, off);
      if !ok {
        return Panicked;
      }
      ghost var m2, l2 := View(), logged;
      if n > 0 && off + n > inodes[i].size {
        inodes := inodes[i := inodes[i].(size := off + n)];
        logged := logged + {IBlock(sb, i)};
      }
      WriteDone(sb, m0, m2, View(), i, off, src);
      AccountDone(l0, l2, logged, t0, m2.inodes[i].addrs[TABLE], off, n, data, bits, news, IBlock(sb, i));
      r := Done(n);
    }

    /** writei's loop over the blocks of a write. */
    method WriteLoop(i: nat, src: seq<Byte>, off: nat)
      returns (ok: bool, ghost data: set<nat>, ghost bits: set<nat>, ghost news: nat)
      requires Good(sb, View()) && i in inodes && off <= inodes[i].size && off + |src| <= MAXFILE * BSIZE
      modifies this`used, this`blocks, this`inodes, this`logged
      ensures !ok ==> forall c :: 0 <= c < |used| ==> used[c]
      ensures ok ==> Progress(sb, old(View()), View(), i, off, src, |src|)
      ensures ok ==> Account(old(logged), logged, old(inodes[i].addrs[TABLE]), inodes[i].addrs[TABLE], off, |src|,
                             data, bits, news)
    {
      ghost var m0, l0, t0 := View(), logged, inodes[i].addrs[TABLE];
      data, bits, news := {}, {}, 0;
      var n := |src|;
      var tot := 0;
      while tot < n
        invariant 0 <= tot <= n && (tot == n || Aligned(off + tot) || tot == 0)
        invariant Progress(sb, m0, View(), i, off, src, tot)
        invariant Account(l0, logged, t0, inodes[i].addrs[TABLE], off, tot, data, bits, news)
      {
        var m;
        ok, m, data, bits, news := WriteTurn(i, src, off, tot, m0, l0, t0, data, bits, news);
        if !ok {
          return;
        }
        tot := tot + m;
      }
      ok := true;
    }

    /** One turn of that loop, with what has been done and logged so far. */
    method WriteTurn(i: nat, src: seq<Byte>, off: nat, tot: nat, ghost m0: Img, ghost l0: set<nat>, ghost t0: nat,
                     ghost data: set<nat>, ghost bits: set<nat>, ghost news: nat)
      returns (ok: bool, m: nat, ghost data': set<nat>, ghost bits': set<nat>, ghost news': nat)
      requires Good(sb, m0) && i in m0.inodes && off <= m0.inodes[i].size && off + |src| <= MAXFILE * BSIZE
      requires tot < |src| && (Aligned(off + tot) || tot == 0) && Progress(sb, m0, View(), i, off, src, tot)
      requires Account(l0, logged, t0, inodes[i].addrs[TABLE], off, tot, data, bits, news)
      modifies this`used, this`blocks, this`inodes, this`logged
      ensures !ok ==> forall c :: 0 <= c < |used| ==> used[c]
      ensures ok ==> 0 < m <= |src| - tot && (tot + m == |src| || Aligned(off + tot + m))
      ensures ok ==> Progress(sb, m0, View(), i, off, src, tot + m)
      ensures ok ==> Account(l0, logged, t0, inodes[i].addrs[TABLE], off, tot + m, data', bits', news')
    {
      ghost var m1, l1, t1 := View(), logged, inodes[i].addrs[TABLE];
      ghost var wasMapped := Mapped(m1, i, (off + tot) / BSIZE);
      FirstMapped(sb, m0, m1, i, off, src, tot);
      m := PartLen(off + tot, |src| - tot);
      ghost var more, a;
      ok, more, a := WritePart(i, off + tot, src[tot..tot + m]);
      if ok {
        ProgressStep(sb, m0, m1, View(), i, off, src, tot, m);
        AccountStep(l0, l1, logged, t0, t1, inodes[i].addrs[TABLE], off, tot, m, data, bits, news, more, a, wasMapped);
      }
      data', bits', news' := data + {a}, bits + more, news + if wasMapped then 0 else 1;
    }

    /** A writei of at most MAXCHUNK bytes between begin_op and end_op: it logs at
        most MAXOPBLOCKS blocks, at whatever offset. */
    method Transaction(i: nat, src: seq<Byte>, off: nat) returns (r: Io)
      requires Good(sb, View()) && i in inodes && off < WORD && |src| <= MAXCHUNK
      modifies this`used, this`blocks, this`inodes, this`logged
      ensures r.Failed? <==> off > old(inodes[i].size) || off + |src| > MAXFILE * BSIZE
      ensures r.Failed? ==> View() == old(View())
      ensures r.Panicked? ==> forall c :: 0 <= c < |used| ==> used[c]
      ensures r.Done? ==> FileHolds(sb, old(View()), View(), i, off, src) && |logged| <= MAXOPBLOCKS
    {
      logged := {};
      r := WriteI(i, src, off);
      ChunkFits(off, |src|);
      assert logged - {} == logged;
    }

    /** filewrite from file offset foff.  It splits the write into transactions
        of at most MAXCHUNK bytes; ops lists the blocks that each logged.  The
        first done bytes have been written, and done is all of them unless the
        file would outgrow MAXFILE blocks or foff lies beyond its end. */
    method FileWrite(i: nat, foff: nat, src: seq<Byte>)
      returns (r: Io, newoff: nat, done: nat, ghost ops: seq<set<nat>>)
      requires Good(sb, View()) && i in inodes && foff + |src| < WORD
      modifies this`used, this`blocks, this`inodes, this`logged
      ensures forall k :: 0 <= k < |ops| ==> |ops[k]| <= MAXOPBLOCKS
      ensures done <= |src| && newoff == foff + done
      ensures !r.Panicked? ==> FileHolds(sb, old(View()), View(), i, foff, src[..done])
      ensures r.Done? <==> !r.Panicked? && done == |src|
      ensures r.Done? ==> r.n == |src|
      ensures r.Panicked? ==> forall c :: 0 <= c < |used| ==> used[c]
      ensures r.Failed? ==>
        || foff > old(inodes[i].size)
        || foff + done + (if |src| - done < MAXCHUNK then |src| - done else MAXCHUNK) > MAXFILE * BSIZE
    {
      ghost var m0 := View();
      ops, newoff, done := [], foff, 0;
      FileHoldsStart(sb, m0, i, foff);
      var n, w := |src|, Done(0);
      while done < n
        invariant 0 <= done <= n && newoff == foff + done && FileHolds(sb, m0, View(), i, foff, src[..done])
        invariant w.Done? && forall k :: 0 <= k < |ops| ==> |ops[k]| <= MAXOPBLOCKS
      {
        var n1 := if n - done > MAXCHUNK then MAXCHUNK else n - done;
        w := Chunk(i, foff, src, done, n1, m0);
        if !w.Done? {
          break;
        }
        ops := ops + [logged];
        newoff, done := newoff + n1, done + n1;
      }
      r := if w.Panicked? then Panicked else if done == n then Done(n) else Failed;
    }

    /** The transaction for the n1 bytes after the first done ones. */
    method Chunk(i: nat, foff: nat, src: seq<Byte>, done: nat, n1: nat, ghost m0: Img) returns (w: Io)
      requires done + n1 <= |src| && n1 <= MAXCHUNK && foff + |src| < WORD && i in m0.inodes
      requires FileHolds(sb, m0, View(), i, foff, src[..done])
      modifies this`used, this`blocks, this`inodes, this`logged
      ensures w.Failed? <==> foff > m0.inodes[i].size || foff + done + n1 > MAXFILE * BSIZE
      ensures w.Failed? ==> FileHolds(sb, m0, View(), i, foff, src[..done])
      ensures w.Panicked? ==> forall c :: 0 <= c < |used| ==> used[c]
      ensures w.Done? ==> FileHolds(sb, m0, View(), i, foff, src[..done + n1]) && |logged| <= MAXOPBLOCKS
    {
      ghost var m1 := View();
      FileHoldsSize(sb, m0, m1, i, foff, src[..done]);
      w := Transaction(i, src[done..done + n1], foff + done);
      if w.Done? {
        FileHoldsStep(sb, m0, m1, View(), i, foff, src[..done], foff + done, src[done..done + n1]);
        assert src[..done] + src[done..done + n1] == src[..done + n1];
      }
    }

    /** readi.  bmap finds every block below the size, so nothing changes. */
    method ReadI(i: nat, off: nat, n: nat) returns (r: Io, dst: seq<Byte>)
      requires Good(sb, View()) && i in inodes && off < WORD && n < WORD
      modifies this`used, this`blocks, this`inodes, this`logged
      ensures View() == old(View()) && logged == old(logged)
      ensures r.Failed? <==> off > inodes[i].size || off + n >= WORD
      ensures !r.Failed? ==>
        var end := if off + n > inodes[i].size then inodes[i].size else off + n;
        r == Done(end - off) && dst == Content(View(), i)[off..end]
    {
      Wraps(off, n);
      if off > inodes[i].size || (off + n) % WORD < off {
        return Failed, [];
      }
      var len := if off + n > inodes[i].size then inodes[i].size - off else n;
      dst := ReadLoop(i, off, len);
      return Done(len), dst;
    }

    method ReadLoop(i: nat, off: nat, len: nat) returns (dst: seq<Byte>)
      requires Good(sb, View()) && i in inodes && off + len <= inodes[i].size
      modifies this`used, this`blocks, this`inodes, this`logged
      ensures View() == old(View()) && logged == old(logged)
      ensures dst == Content(View(), i)[off..off + len]
    {
      ghost var m0, c := View(), Content(View(), i);
      dst := [];
      var tot := 0;
      while tot < len
        invariant 0 <= tot <= len && View() == m0 && logged == old(logged) && dst == c[off..off + tot]
      {
        var m := PartLen(off + tot, len - tot);
        var part := ReadPart(i, off + tot, m);
        Slices(c, off, off + tot, off + tot + m);
        dst := dst + part;
        tot := tot + m;
      }
    }

    /** One turn of readi's loop: the part of a read that falls in one block. */
    method ReadPart(i: nat, off: nat, m: nat) returns (part: seq<Byte>)
      requires Good(sb, View()) && i in inodes && InOneBlock(off, m) && m > 0 && off + m <= inodes[i].size
      modifies this`used, this`blocks, this`inodes, this`logged
      ensures View() == old(View()) && logged == old(logged) && part == Content(View(), i)[off..off + m]
    {
      assert FileOk(View(), i);
      MappedAt(View(), i, off);
      ReadBlock(View(), i, off, m);
      var ok, a;
      ghost var bits;
      ok, a, bits := BMap(i, off / BSIZE);
      assert ok;
      var o := off % BSIZE;
      part := blocks[a][o..o + m];
    }

    /** itrunc.  It frees exactly the blocks of the inode, each of which is marked
        as used when its turn comes, so "freeing free block" is not raised. */
    method ITrunc(i: nat) returns (ok: bool)
      requires Conserved(sb, View()) && i in inodes
      modifies this`used, this`inodes, this`logged
      ensures ok && blocks == old(blocks)
      ensures |used| == |old(used)|
      ensures forall b: nat :: b < |used| ==> (used[b] <==> old(used[b]) && !NamedBy(old(View()), i, b))
      ensures inodes == old(inodes)[i := Inode(seq(NDIRECT + 1, _ => 0), 0)]
      ensures old(Good(sb, View())) ==>
        && Good(sb, View()) && Content(View(), i) == []
        && forall j :: j in inodes && j != i ==> Content(View(), j) == old(Content(View(), j))
    {
      ghost var m0 := View();
      ghost var done: set<nat> := {};
      var k := 0;
      while k < NDIRECT
        invariant 0 <= k <= NDIRECT && blocks == m0.blocks
        invariant Freed(m0, used, i, done) && forall l: nat :: l in done <==> l < k
        invariant i in inodes && |inodes[i].addrs| == NDIRECT + 1 && inodes == m0.inodes[i := inodes[i]]
        invariant forall l :: 0 <= l < k ==> inodes[i].addrs[l] == 0
        invariant forall l :: k <= l <= TABLE ==> inodes[i].addrs[l] == m0.inodes[i].addrs[l]
      {
        FreeSlot(sb, m0, used, i, done, k);
        if inodes[i].addrs[k] != 0 {
          ok := BFree(inodes[i].addrs[k]);
          if !ok {
            return false;
          }
          inodes := inodes[i := inodes[i].(addrs := inodes[i].addrs[k := 0])];
        }
        done := done + {k};
        k := k + 1;
      }
      ok := TruncTable(i, m0, done);
      if !ok {
        return false;
      }
      inodes := inodes[i := inodes[i].(size := 0)];
      logged := logged + {IBlock(sb, i)};
      assert inodes[i].addrs == seq(NDIRECT + 1, _ => 0);
      if Good(sb, m0) {
        TruncConserves(sb, m0, View(), i);
      }
    }

    /** The blocks that the table t of inode i names. */
    method TruncEntries(i: nat, t: nat, ghost m0: Img, ghost direct: set<nat>) returns (ok: bool, ghost done: set<nat>)
      requires Conserved(sb, m0) && blocks == m0.blocks && i in m0.inodes && t == Addr(m0, i, TABLE) != 0
      requires Freed(m0, used, i, direct) && forall l: nat :: l in direct <==> l < NDIRECT
      modifies this`used, this`logged
      ensures ok && Freed(m0, used, i, done)
      ensures forall l: nat :: l in done <==> l < NDIRECT || NDIRECT < l <= NDIRECT + NINDIRECT
    {
      assert SlotOk(sb, m0, i, TABLE);
      done := direct;
      var j := 0;
      while j < NINDIRECT
        invariant 0 <= j <= NINDIRECT && Freed(m0, used, i, done)
        invariant forall l: nat :: l in done <==> l < NDIRECT || NDIRECT < l <= NDIRECT + j
      {
        FreeSlot(sb, m0, used, i, done, NDIRECT + 1 + j);
        var a := Word(blocks[t], j);
        if a != 0 {
          ok := BFree(a);
          if !ok {
            return false, done;
          }
        }
        done := done + {NDIRECT + 1 + j};
        j := j + 1;
      }
      ok := true;
    }

    /** itrunc's second half: the blocks named by the table, then the table. */
    method TruncTable(i: nat, ghost m0: Img, ghost direct: set<nat>) returns (ok: bool)
      requires Conserved(sb, m0) && blocks == m0.blocks && i in m0.inodes
      requires Freed(m0, used, i, direct) && forall l: nat :: l in direct <==> l < NDIRECT
      requires i in inodes && |inodes[i].addrs| == NDIRECT + 1 && inodes == m0.inodes[i := inodes[i]]
      requires inodes[i].addrs[TABLE] == m0.inodes[i].addrs[TABLE]
      requires forall l :: 0 <= l < NDIRECT ==> inodes[i].addrs[l] == 0
      modifies this`used, this`inodes, this`logged
      ensures ok
      ensures |used| == |m0.used|
      ensures forall b: nat :: b < |used| ==> (used[b] <==> m0.used[b] && !NamedBy(m0, i, b))
      ensures i in inodes && |inodes[i].addrs| == NDIRECT + 1 && inodes == m0.inodes[i := inodes[i]]
      ensures forall l :: 0 <= l <= TABLE ==> inodes[i].addrs[l] == 0
    {
      assert SlotOk(sb, m0, i, TABLE);
      var t := inodes[i].addrs[TABLE];
      ghost var done: set<nat> := direct;
      if t != 0 {
        ok, done := TruncEntries(i, t, m0, direct);
        if !ok {
          return false;
        }
        FreeSlot(sb, m0, used, i, done, TABLE);
        ok := BFree(t);
        if !ok {
          return false;
        }
        inodes := inodes[i := inodes[i].(addrs := inodes[i].addrs[TABLE := 0])];
        done := done + {TABLE};
      }
      FreedAll(m0, used, i, done);
      return true;
    }
  }

  // ---- filewrite ----------------------------------------------------------

  /** ((MAXOPBLOCKS-1-1-2) / 2) * 512. */
  const MAXCHUNK: nat := 1536

  /** A transaction of filewrite is within budget whatever the offset. */
  lemma ChunkFits(off: nat, n: nat)
    requires n <= MAXCHUNK
    ensures LogBound(off, n) <= MAXOPBLOCKS
  {
    assert MAXCHUNK == ((MAXOPBLOCKS - 1 - 1 - 2) / 2) * 512;
  }

  lemma OverwriteTwice(c: seq<Byte>, off: nat, a: seq<Byte>, b: seq<Byte>)
    requires off <= |c|
    ensures off + |a| <= |Overwrite(c, off, a)|
    ensures Overwrite(Overwrite(c, off, a), off + |a|, b) == Overwrite(c, off, a + b)
  {
  }

  /** File i holds its old content with part written at foff, if foff is within
      the file, and every other file is as it was. */
  ghost predicate FileHolds(sb: Super, m0: Img, m: Img, i: nat, foff: nat, part: seq<Byte>) {
    && Good(sb, m) && i in m0.inodes && m.inodes.Keys == m0.inodes.Keys
    && (foff > m0.inodes[i].size ==> part == [])
    && Content(m, i) == (if foff <= m0.inodes[i].size then Overwrite(Content(m0, i), foff, part) else Content(m0, i))
    && forall j :: j in m0.inodes && j != i ==> Content(m, j) == Content(m0, j)
  }

  lemma FileHoldsStart(sb: Super, m: Img, i: nat, foff: nat)
    requires Good(sb, m) && i in m.inodes
    ensures FileHolds(sb, m, m, i, foff, [])
  {
    var c := Content(m, i);
    if foff <= |c| {
      assert c[..foff] + [] + c[foff..] == c;
    }
  }

  lemma FileHoldsSize(sb: Super, m0: Img, m: Img, i: nat, foff: nat, part: seq<Byte>)
    requires FileHolds(sb, m0, m, i, foff, part)
    ensures foff <= m0.inodes[i].size <==> foff + |part| <= m.inodes[i].size
  {
    assert |Content(m, i)| == m.inodes[i].size && |Content(m0, i)| == m0.inodes[i].size;
  }

  lemma FileHoldsStep(sb: Super, m0: Img, m1: Img, m2: Img, i: nat, foff: nat, a: seq<Byte>, off: nat, b: seq<Byte>)
    requires FileHolds(sb, m0, m1, i, foff, a) && off == foff + |a|
    requires i in m1.inodes && off <= m1.inodes[i].size && FileHolds(sb, m1, m2, i, off, b)
    ensures FileHolds(sb, m0, m2, i, foff, a + b)
  {
    FileHoldsSize(sb, m0, m1, i, foff, a);
    OverwriteTwice(Content(m0, i), foff, a, b);
  }

  // ---- itrunc -------------------------------------------------------------

  /** Slot k, for some k, of inode i names block b. */
  ghost predicate NamedBy(m: Img, i: nat, b: nat) {
    b != 0 && exists k :: IsSlot(m, i, k) && Addr(m, i, k) == b
  }

  ghost predicate NamedIn(m: Img, i: nat, ks: set<nat>, b: nat) {
    b != 0 && exists k :: k in ks && IsSlot(m, i, k) && Addr(m, i, k) == b
  }

  /** The blocks that the slots ks of inode i name are free, the others are as
      they were in m. */
  ghost predicate Freed(m: Img, used: seq<bool>, i: nat, ks: set<nat>) {
    |used| == |m.used| && forall b: nat :: b < |used| ==> (used[b] <==> m.used[b] && !NamedIn(m, i, ks, b))
  }

  lemma FreeSlot(sb: Super, m: Img, used: seq<bool>, i: nat, ks: set<nat>, k: nat)
    requires Conserved(sb, m) && IsSlot(m, i, k) && k !in ks && Freed(m, used, i, ks)
    ensures var a := Addr(m, i, k);
      if a == 0 then Freed(m, used, i, ks + {k})
      else a < |used| && used[a] && Freed(m, used[a := false], i, ks + {k})
  {
    var a := Addr(m, i, k);
    assert SlotOk(sb, m, i, k);
    forall b: nat ensures NamedIn(m, i, ks + {k}, b) <==> NamedIn(m, i, ks, b) || (b != 0 && b == a) {
    }
    if a != 0 {
      forall l | l in ks && IsSlot(m, i, l) ensures Addr(m, i, l) != a {
        assert PairOk(m, i, k, i, l);
      }
    }
  }

  lemma FreedAll(m: Img, used: seq<bool>, i: nat, ks: set<nat>)
    requires i in m.inodes && |m.inodes[i].addrs| == NDIRECT + 1 && Freed(m, used, i, ks)
    requires forall l :: 0 <= l < NDIRECT ==> l in ks
    requires m.inodes[i].addrs[TABLE] != 0 ==> forall l :: TABLE <= l < SLOTS ==> l in ks
    ensures forall b: nat :: b < |used| ==> (used[b] <==> m.used[b] && !NamedBy(m, i, b))
  {
    forall b: nat | b < |used| ensures NamedBy(m, i, b) <==> NamedIn(m, i, ks, b) {
      if NamedBy(m, i, b) {
        var k :| IsSlot(m, i, k) && Addr(m, i, k) == b;
        assert k in ks;
      }
    }
  }

  /** After itrunc the bitmap accounts for the remaining blocks, and no other
      file has changed. */
  lemma TruncConserves(sb: Super, m: Img, m': Img, i: nat)
    requires Good(sb, m) && i in m.inodes && m'.blocks == m.blocks && |m'.used| == |m.used|
    requires forall b: nat :: b < |m.used| ==> (m'.used[b] <==> m.used[b] && !NamedBy(m, i, b))
    requires m'.inodes == m.inodes[i := Inode(seq(NDIRECT + 1, _ => 0), 0)]
    ensures Good(sb, m') && Content(m', i) == []
    ensures forall j :: j in m.inodes && j != i ==> Content(m', j) == Content(m, j)
  {
    forall j, l ensures SlotOk(sb, m', j, l) {
      TruncSlot(sb, m, m', i, j, l);
    }
    forall j, l, g, h ensures PairOk(m', j, l, g, h) {
      assert PairOk(m, j, l, g, h);
    }
    forall b: nat ensures UsedOk(sb, m', b) {
      TruncUsed(sb, m, m', i, b);
    }
    forall j ensures FileOk(m', j) {
      assert FileOk(m, j);
      assert j != i ==> forall bn: nat :: Mapped(m, j, bn) ==> Mapped(m', j, bn);
    }
    forall j | j in m.inodes && j != i ensures Content(m', j) == Content(m, j) {
      assert forall p: nat :: ByteAt(m', j, p) == ByteAt(m, j, p);
    }
  }

  lemma TruncSlot(sb: Super, m: Img, m': Img, i: nat, j: nat, l: nat)
    requires Good(sb, m) && i in m.inodes && m'.blocks == m.blocks && |m'.used| == |m.used|
    requires forall b: nat :: b < |m.used| ==> (m'.used[b] <==> m.used[b] && !NamedBy(m, i, b))
    requires m'.inodes == m.inodes[i := Inode(seq(NDIRECT + 1, _ => 0), 0)]
    ensures SlotOk(sb, m', j, l)
  {
    assert SlotOk(sb, m, j, l);
    if j != i && IsSlot(m, j, l) && Addr(m, j, l) != 0 {
      forall k | IsSlot(m, i, k) ensures Addr(m, i, k) != Addr(m, j, l) {
        assert PairOk(m, j, l, i, k);
      }
    }
  }

  lemma TruncUsed(sb: Super, m: Img, m': Img, i: nat, b: nat)
    requires Good(sb, m) && i in m.inodes && m'.blocks == m.blocks && |m'.used| == |m.used|
    requires forall b: nat :: b < |m.used| ==> (m'.used[b] <==> m.used[b] && !NamedBy(m, i, b))
    requires m'.inodes == m.inodes[i := Inode(seq(NDIRECT + 1, _ => 0), 0)]
    ensures UsedOk(sb, m', b)
  {
    assert UsedOk(sb, m, b);
    if b < sb.data {
      forall k | IsSlot(m, i, k) ensures Addr(m, i, k) != b || b == 0 {
        assert SlotOk(sb, m, i, k);
      }
    } else if b < |m'.used| && m'.used[b] {
      var j, l :| IsSlot(m, j, l) && Addr(m, j, l) == b;
      assert j != i;
      assert IsSlot(m', j, l) && Addr(m', j, l) == b;
    }
  }

  // ---- readi --------------------------------------------------------------

  lemma ReadBlock(m: Img, i: nat, pos: nat, k: nat)
    requires i in m.inodes && Mapped(m, i, pos / BSIZE) && InOneBlock(pos, k) && pos + k <= m.inodes[i].size
    ensures var b := m.blocks[Addr(m, i, SlotOf(pos / BSIZE))];
      b[pos % BSIZE..pos % BSIZE + k] == Content(m, i)[pos..pos + k]
  {
    var b, c := m.blocks[Addr(m, i, SlotOf(pos / BSIZE))], Content(m, i);
    var r, d := b[pos % BSIZE..pos % BSIZE + k], c[pos..pos + k];
    forall x | 0 <= x < k ensures r[x] == d[x] {
      InBlock(pos, k, pos + x);
      assert d[x] == ByteAt(m, i, pos + x);
    }
  }

  lemma Slices(c: seq<Byte>, x: nat, y: nat, z: nat)
    requires x <= y <= z <= |c|
    ensures c[x..y] + c[y..z] == c[x..z]
  {
  }

  lemma MappedAt(m: Img, i: nat, pos: nat)
    requires FileOk(m, i) && i in m.inodes && pos < m.inodes[i].size
    ensures Mapped(m, i, pos / BSIZE)
  {
    assert pos / BSIZE * BSIZE <= pos;
  }

  lemma Wraps(off: nat, n: nat)
    requires off < WORD && n < WORD
    ensures (off + n) % WORD < off <==> off + n >= WORD
  {
  }

  // ---- writei's loop ------------------------------------------------------

  /** The first tot bytes of a write have reached the image m. */
  ghost predicate Progress(sb: Super, m0: Img, m: Img, i: nat, off: nat, src: seq<Byte>, tot: nat) {
    && i in m.inodes && |m.inodes[i].addrs| == NDIRECT + 1
    && tot <= |src| && Conserved(sb, m) && SameSizes(m0, m) && MapGrows(m0, m)
    && Wrote(m0, m, i, off, src[..tot])
    && (forall p: nat :: off <= p < off + tot ==> Mapped(m, i, p / BSIZE))
  }

  /** The part of a write that falls in one block has been made. */
  ghost predicate PartDone(sb: Super, m1: Img, m2: Img, i: nat, off: nat, src: seq<Byte>) {
    && i in m2.inodes && |m2.inodes[i].addrs| == NDIRECT + 1
    && Conserved(sb, m2) && SameSizes(m1, m2) && MapGrows(m1, m2)
    && Mapped(m2, i, off / BSIZE) && Wrote(m1, m2, i, off, src)
  }

  /** What that part has logged: the data block a, and if it was new the bitmap
      blocks bits and the indirect table. */
  ghost predicate PartLogged(l1: set<nat>, l2: set<nat>, t1: nat, t2: nat, bits: set<nat>, a: nat, wasMapped: bool) {
    && l2 <= l1 + bits + {a} + (if wasMapped then {} else TableSet(t2))
    && |bits| <= (if wasMapped then 0 else 1) + (if t2 == t1 then 0 else 1)
    && (t1 != 0 ==> t2 == t1)
  }

  lemma ProgressStep(sb: Super, m0: Img, m1: Img, m2: Img, i: nat, off: nat, src: seq<Byte>, tot: nat, k: nat)
    requires Progress(sb, m0, m1, i, off, src, tot) && tot + k <= |src| && InOneBlock(off + tot, k)
    requires PartDone(sb, m1, m2, i, off + tot, src[tot..tot + k])
    ensures Progress(sb, m0, m2, i, off, src, tot + k)
  {
    WroteTrans(m0, m1, m2, i, off, src, tot, tot + k);
    forall p: nat | off <= p < off + tot + k ensures Mapped(m2, i, p / BSIZE) {
      if p < off + tot {
        assert Mapped(m1, i, p / BSIZE);
      } else {
        InBlock(off + tot, k, p);
      }
    }
  }

  /** The block in which an unaligned write starts is mapped already. */
  lemma FirstMapped(sb: Super, m0: Img, m1: Img, i: nat, off: nat, src: seq<Byte>, tot: nat)
    requires Good(sb, m0) && i in m0.inodes && off <= m0.inodes[i].size && Progress(sb, m0, m1, i, off, src, tot)
    ensures tot == 0 && off % BSIZE != 0 ==> Mapped(m1, i, (off + tot) / BSIZE)
  {
    if tot == 0 && off % BSIZE != 0 {
      assert FileOk(m0, i);
      assert off / BSIZE * BSIZE < off;
      assert Mapped(m0, i, off / BSIZE);
    }
  }

  function TableSet(t: nat): (r: set<nat>)
    ensures |r| <= 1
  {
    if t == 0 then {} else {t}
  }

  /** data, bits and the table cover what has been logged, and their sizes. */
  ghost predicate Account(l0: set<nat>, l: set<nat>, t0: nat, t: nat, off: nat, tot: nat, data: set<nat>,
                          bits: set<nat>, news: nat) {
    && l <= l0 + data + bits + TableSet(t)
    && (t0 != 0 ==> t == t0)
    && (tot == 0 ==> l == l0 && t == t0)
    && |data| <= Blocks(off, tot)
    && |bits| <= news + (if t == t0 then 0 else 1)
    && news <= Blocks(off, tot) - (if tot > 0 && off % BSIZE != 0 then 1 else 0)
  }

  lemma UnionSize<T>(a: set<T>, b: set<T>)
    ensures |a + b| <= |a| + |b|
  {
    assert a + b == a + (b - a);
  }

  lemma AccountStep(l0: set<nat>, l1: set<nat>, l2: set<nat>, t0: nat, t1: nat, t2: nat, off: nat, tot: nat, k: nat,
                    data: set<nat>, bits: set<nat>, news: nat, more: set<nat>, a: nat, wasMapped: bool)
    requires Account(l0, l1, t0, t1, off, tot, data, bits, news)
    requires InOneBlock(off + tot, k) && (tot == 0 || Aligned(off + tot))
    requires PartLogged(l1, l2, t1, t2, more, a, wasMapped)
    requires tot == 0 && off % BSIZE != 0 ==> wasMapped
    ensures Account(l0, l2, t0, t2, off, tot + k, data + {a}, bits + more, news + if wasMapped then 0 else 1)
  {
    BlocksStep(off, tot, k);
    UnionSize(data, {a});
    UnionSize(bits, more);
  }

  lemma AccountDone(l0: set<nat>, l2: set<nat>, l3: set<nat>, t0: nat, t: nat, off: nat, n: nat,
                    data: set<nat>, bits: set<nat>, news: nat, ib: nat)
    requires Account(l0, l2, t0, t, off, n, data, bits, news)
    requires l3 == l2 || (n > 0 && l3 == l2 + {ib})
    ensures |l3 - l0| <= LogBound(off, n)
  {
    if n == 0 {
      assert l3 - l0 == {};
    } else {
      var cover := data + bits + TableSet(t) + {ib};
      UnionSize(data, bits);
      UnionSize(data + bits, TableSet(t));
      UnionSize(data + bits + TableSet(t), {ib});
      assert l3 - l0 <= cover;
      SubsetSize(l3 - l0, cover);
    }
  }

  lemma SubsetSize<T>(a: set<T>, b: set<T>)
    requires a <= b
    ensures |a| <= |b|
  {
    assert b == a + (b - a);
  }

  /** When all of src has been written and the size adjusted the file holds the
      overwritten content and no other file has changed. */
  lemma WriteDone(sb: Super, m0: Img, m2: Img, m3: Img, i: nat, off: nat, src: seq<Byte>)
    requires Good(sb, m0) && i in m0.inodes && off <= m0.inodes[i].size && off + |src| <= MAXFILE * BSIZE
    requires Progress(sb, m0, m2, i, off, src, |src|)
    requires m3 == if |src| > 0 && off + |src| > m2.inodes[i].size then WithSize(m2, i, off + |src|) else m2
    ensures FileHolds(sb, m0, m3, i, off, src)
  {
    if |src| > 0 && off + |src| > m2.inodes[i].size {
      SizeKeeps(sb, m2, i, off + |src|);
    }
    assert SameBytes(m2, m3) && MapGrows(m2, m3);
    forall j ensures FileOk(m3, j) {
      assert FileOk(m0, j);
      FileStays(m0, m2, m3, i, off, src, j);
    }
    assert src[..|src|] == src;
    ContentDone(m0, m2, m3, i, off, src);
    forall j | j in m0.inodes && j != i ensures Content(m3, j) == Content(m0, j) {
      OthersStay(m0, m2, m3, i, off, src, j);
    }
  }

  lemma OthersStay(m0: Img, m2: Img, m3: Img, i: nat, off: nat, src: seq<Byte>, j: nat)
    requires j in m0.inodes && j in m3.inodes && j != i && m3.inodes[j].size == m0.inodes[j].size
    requires SameBytes(m2, m3) && Wrote(m0, m2, i, off, src)
    ensures Content(m3, j) == Content(m0, j)
  {
    assert forall p: nat :: ByteAt(m3, j, p) == ByteAt(m2, j, p);
  }

  lemma FileStays(m0: Img, m2: Img, m3: Img, i: nat, off: nat, src: seq<Byte>, j: nat)
    requires FileOk(m0, j) && SameSizes(m0, m2) && MapGrows(m0, m2) && MapGrows(m2, m3) && i in m2.inodes
    requires off <= m0.inodes[i].size && off + |src| <= MAXFILE * BSIZE
    requires forall p: nat :: off <= p < off + |src| ==> Mapped(m2, i, p / BSIZE)
    requires m3 == if |src| > 0 && off + |src| > m2.inodes[i].size then WithSize(m2, i, off + |src|) else m2
    ensures FileOk(m3, j)
  {
    if j in m3.inodes {
      forall bn: nat | bn < MAXFILE && bn * BSIZE < m3.inodes[j].size ensures Mapped(m3, j, bn) {
        if bn * BSIZE < m0.inodes[j].size {
          assert Mapped(m0, j, bn);
        } else {
          assert bn * BSIZE / BSIZE == bn;
          assert Mapped(m2, i, bn * BSIZE / BSIZE);
        }
      }
    }
  }

  lemma ContentDone(m0: Img, m2: Img, m3: Img, i: nat, off: nat, src: seq<Byte>)
    requires i in m0.inodes && SameSizes(m0, m2) && SameBytes(m2, m3) && off <= m0.inodes[i].size
    requires Wrote(m0, m2, i, off, src)
    requires m3 == if |src| > 0 && off + |src| > m2.inodes[i].size then WithSize(m2, i, off + |src|) else m2
    ensures Content(m3, i) == Overwrite(Content(m0, i), off, src)
  {
    var c, d := Content(m3, i), Overwrite(Content(m0, i), off, src);
    assert |c| == |d|;
    forall p | 0 <= p < |c| ensures c[p] == d[p] {
      assert ByteAt(m3, i, p) == ByteAt(m2, i, p);
    }
  }

  /** Data blocks, a bitmap block for each new one, the indirect table and its
      bitmap block, and the inode.  The block in which an unaligned write starts
      is there already. */
  function LogBound(off: nat, n: nat): nat {
    if n == 0 then 0 else 2 * Blocks(off, n) + 3 - if off % BSIZE != 0 then 1 else 0
  }

  lemma WroteTrans(m0: Img, m1: Img, m2: Img, i: nat, off: nat, src: seq<Byte>, x: nat, y: nat)
    requires x <= y <= |src| && Wrote(m0, m1, i, off, src[..x]) && Wrote(m1, m2, i, off + x, src[x..y])
    ensures Wrote(m0, m2, i, off, src[..y])
  {
    forall j: nat, p: nat
      ensures ByteAt(m2, j, p) == if j == i && off <= p < off + y then src[..y][p - off] else ByteAt(m0, j, p)
    {
      assert ByteAt(m1, j, p) == if j == i && off <= p < off + x then src[..x][p - off] else ByteAt(m0, j, p);
    }
  }

  lemma BlocksStep(off: nat, tot: nat, m: nat)
    requires InOneBlock(off + tot, m) && (tot == 0 || Aligned(off + tot))
    ensures Blocks(off, tot + m) == Blocks(off, tot) + 1
  {
  }

  /** Patching one block writes the range. */
  lemma WroteFromBlock(m: Img, m1: Img, m2: Img, i: nat, off: nat, src: seq<Byte>, data: Block)
    requires Mapped(m1, i, off / BSIZE) && SameBytes(m, m1)
    requires InOneBlock(off, |src|)
    requires
      var o, b := off % BSIZE, m1.blocks[Addr(m1, i, SlotOf(off / BSIZE))];
      data == b[..o] + src + b[o + |src|..]
    requires forall j: nat, p: nat :: ByteAt(m2, j, p)
              == if j == i && p / BSIZE == off / BSIZE then data[p % BSIZE] else ByteAt(m1, j, p)
    ensures Wrote(m, m2, i, off, src)
  {
    forall j: nat, p: nat
      ensures ByteAt(m2, j, p) == if j == i && off <= p < off + |src| then src[p - off] else ByteAt(m, j, p)
    {
      assert ByteAt(m1, j, p) == ByteAt(m, j, p);
      InBlock(off, |src|, p);
    }
  }

  lemma InBlock(off: nat, n: nat, p: nat)
    requires InOneBlock(off, n)
    ensures off <= p < off + n <==> p / BSIZE == off / BSIZE && off % BSIZE <= p % BSIZE < off % BSIZE + n
    ensures p / BSIZE == off / BSIZE ==> p - off == p % BSIZE - off % BSIZE
  {
  }

  lemma InvisibleTrans(m1: Img, m2: Img, m3: Img)
    requires (m1 == m2 || Invisible(m1, m2)) && (m2 == m3 || Invisible(m2, m3))
    ensures Invisible(m1, m3)
  {
  }
}
