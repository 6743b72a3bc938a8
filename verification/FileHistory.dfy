/** Files as flat byte arrays: what any sequence of writes, truncations and reads
    over any set of inodes leaves in them, and what it answers. */
module FileHistory {
  import opened Common
  import opened FileImage
  import opened FileSystem

  datatype FileOp =
    | WriteOp(i: nat, off: nat, src: seq<Byte>)
    | TruncOp(i: nat)
    | ReadOp(i: nat, off: nat, n: nat)

  /** Refused is -1, from writei or readi. */
  datatype Answer = Refused | Wrote(n: nat) | Truncated | Got(bytes: seq<Byte>)

  type Files = map<nat, seq<Byte>>

  /** What the file system shows. */
  function FilesOf(m: Img): Files {
    map i | i in m.inodes :: Content(m, i)
  }

  // ---- the reference: one flat byte array per file ------------------------

  function FlatFiles(fs: Files, op: FileOp): Files
    requires op.i in fs
  {
    match op
    case WriteOp(i, off, src) => if Writable(fs[i], off, |src|) then fs[i := Overwrite(fs[i], off, src)] else fs
    case TruncOp(i) => fs[i := []]
    case ReadOp(_, _, _) => fs
  }

  predicate Writable(c: seq<Byte>, off: nat, n: nat) {
    off <= |c| && off + n <= MAXFILE * BSIZE
  }

  function FlatAnswer(fs: Files, op: FileOp): Answer
    requires op.i in fs
  {
    match op
    case WriteOp(i, off, src) => if Writable(fs[i], off, |src|) then Wrote(|src|) else Refused
    case TruncOp(_) => Truncated
    case ReadOp(i, off, n) =>
      if off > |fs[i]| || off + n >= WORD then Refused
      else Got(fs[i][off..if off + n > |fs[i]| then |fs[i]| else off + n])
  }

  predicate FilesKnown(fs: Files, ops: seq<FileOp>) {
    forall x :: 0 <= x < |ops| ==> ops[x].i in fs
  }

  /** The files after ops, and the answers to them. */
  function FlatRun(fs: Files, ops: seq<FileOp>): (r: (Files, seq<Answer>))
    requires FilesKnown(fs, ops)
    ensures r.0.Keys == fs.Keys && |r.1| == |ops|
    decreases |ops|
  {
    if ops == [] then (fs, [])
    else
      var (before, answers) := FlatRun(fs, ops[..|ops| - 1]);
      var op := ops[|ops| - 1];
      (FlatFiles(before, op), answers + [FlatAnswer(before, op)])
  }

  lemma FlatRunMore(fs: Files, ops: seq<FileOp>, op: FileOp)
    requires FilesKnown(fs, ops) && op.i in fs
    ensures FilesKnown(fs, ops + [op])
    ensures var (before, answers) := FlatRun(fs, ops);
      FlatRun(fs, ops + [op]) == (FlatFiles(before, op), answers + [FlatAnswer(before, op)])
  {
    assert (ops + [op])[..|ops|] == ops;
  }

  // ---- the file system ----------------------------------------------------

  /** Offsets and lengths are unsigned words. */
  predicate InWords(op: FileOp) {
    match op
    case WriteOp(_, off, src) => off < WORD && |src| < WORD
    case TruncOp(_) => true
    case ReadOp(_, off, n) => off < WORD && n < WORD
  }

  /** Any sequence of writei, itrunc and readi over any of the inodes.  Unless the
      disk fills up, every file holds and every call answers exactly what flat
      byte arrays would, and the block accounting is intact. */
  method Perform(fs: Fs, ops: seq<FileOp>) returns (full: bool, answers: seq<Answer>)
    requires Good(fs.sb, fs.View()) && FilesKnown(FilesOf(fs.View()), ops)
    requires forall x :: 0 <= x < |ops| ==> InWords(ops[x])
    modifies fs
    ensures full ==> forall c :: 0 <= c < |fs.used| ==> fs.used[c]
    ensures !full ==> Good(fs.sb, fs.View())
    ensures !full ==> (FilesOf(fs.View()), answers) == FlatRun(old(FilesOf(fs.View())), ops)
  {
    ghost var f0 := FilesOf(fs.View());
    answers := [];
    for x := 0 to |ops|
      invariant Good(fs.sb, fs.View()) && FilesKnown(f0, ops[..x])
      invariant (FilesOf(fs.View()), answers) == FlatRun(f0, ops[..x])
    {
      assert ops[..x + 1] == ops[..x] + [ops[x]];
      FlatRunMore(f0, ops[..x], ops[x]);
      var answer;
      full, answer := Call(fs, ops[x]);
      if full {
        return;
      }
      answers := answers + [answer];
    }
    assert ops[..|ops|] == ops;
    full := false;
  }

  /** One of the calls. */
  method Call(fs: Fs, op: FileOp) returns (full: bool, answer: Answer)
    requires Good(fs.sb, fs.View()) && op.i in FilesOf(fs.View()) && InWords(op)
    modifies fs
    ensures full ==> forall c :: 0 <= c < |fs.used| ==> fs.used[c]
    ensures !full ==> Good(fs.sb, fs.View()) && FilesOf(fs.View()) == FlatFiles(old(FilesOf(fs.View())), op)
    ensures !full ==> answer == FlatAnswer(old(FilesOf(fs.View())), op)
  {
    ghost var m := fs.View();
    full, answer := false, Truncated;
    match op
    case WriteOp(i, off, src) =>
      var r := fs.WriteI(i, src, off);
      WriteAnswers(fs.sb, m, fs.View(), i, off, src, r);
      full, answer := r.Panicked?, if r.Done? then Wrote(r.n) else Refused;
    case TruncOp(i) =>
      var ok := fs.ITrunc(i);
      assert ok;
      assert FilesOf(fs.View()) == FilesOf(m)[i := []];
    case ReadOp(i, off, n) =>
      var r, dst := fs.ReadI(i, off, n);
      answer := if r.Done? then Got(dst) else Refused;
  }

  lemma WriteAnswers(sb: Super, m: Img, m': Img, i: nat, off: nat, src: seq<Byte>, r: Io)
    requires Good(sb, m) && i in m.inodes
    requires r.Failed? <==> off > m.inodes[i].size || off + |src| > MAXFILE * BSIZE
    requires r.Failed? ==> m' == m
    requires r.Done? ==> FileHolds(sb, m, m', i, off, src)
    ensures !r.Panicked? ==> Good(sb, m') && FilesOf(m') == FlatFiles(FilesOf(m), WriteOp(i, off, src))
    ensures r.Failed? <==> !Writable(FilesOf(m)[i], off, |src|)
  {
    if r.Done? {
      var f, f' := FilesOf(m), FilesOf(m');
      forall j | j in f ensures j in f' && f'[j] == FlatFiles(f, WriteOp(i, off, src))[j] {
      }
      assert f'.Keys == f.Keys;
      assert f' == FlatFiles(f, WriteOp(i, off, src));
    }
  }

  /** mkfs leaves such an image: only metadata used and every inode empty. */
  lemma FreshGood(sb: Super, m: Img)
    requires WellFormed(sb, m) && forall b :: 0 <= b < sb.size ==> (m.used[b] <==> b < sb.data)
    requires forall i :: i in m.inodes ==> m.inodes[i] == Inode(seq(NDIRECT + 1, _ => 0), 0)
    ensures Good(sb, m)
  {
    forall i: nat, k: nat ensures IsSlot(m, i, k) ==> Addr(m, i, k) == 0 {
    }
    assert forall i, k :: SlotOk(sb, m, i, k);
    assert forall i, k, j, l :: PairOk(m, i, k, j, l);
  }
}
