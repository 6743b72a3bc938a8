/** Two-level page tables over physical pages, and who owns each page.  Virtual
    and physical addresses are page numbers here. */
module PageTables {

  const NENTRIES: nat := 1024
  const USERPAGES: nat := 0x8_0000        // KERNBASE / PGSIZE
  const ALLPAGES: nat := 0x10_0000
  const NULL: int := 0

  type Bytes = seq<int>

  /** An entry of a directory or of a table; perm stands for the flags beside
      PTE_P. */
  datatype Pte = None | Pte(page: int, perm: int)

  /** A physical page is on the free list, holds entries, or holds data. */
  datatype Page = Run(next: int) | Table(ptes: seq<Pte>) | Data(bytes: Bytes)

  /** What a directory needs a page for. */
  datatype Use = Root(dir: int) | Tab(dir: int, x: nat) | Leaf(dir: int, v: nat)

  /** uses gives every page that belongs to a directory its purpose. */
  datatype World = World(mem: map<int, Page>, uses: map<int, Use>, dirs: set<int>)

  function Pdx(v: nat): (x: nat) { v / NENTRIES }

  function Ptx(v: nat): (i: nat)
    ensures i < NENTRIES
  {
    v % NENTRIES
  }

  lemma PageOf(v: nat, u: nat)
    requires Pdx(v) == Pdx(u) && Ptx(v) == Ptx(u)
    ensures v == u
  {
  }

  predicate IsTable(mem: map<int, Page>, p: int) {
    p in mem && mem[p].Table? && |mem[p].ptes| == NENTRIES
  }

  function Entry(mem: map<int, Page>, p: int, i: nat): Pte {
    if IsTable(mem, p) && i < NENTRIES then mem[p].ptes[i] else None
  }

  /** The entry for page v of directory d. */
  function Lookup(mem: map<int, Page>, d: int, v: nat): Pte {
    var e := Entry(mem, d, Pdx(v));
    if e.None? then None else Entry(mem, e.page, Ptx(v))
  }

  /** What the address space d has at page v; the contents of the kernel half
      are not modelled. */
  datatype Seen = Unmapped | Mapped(page: int, perm: int, bytes: Bytes)

  function See(mem: map<int, Page>, d: int, v: nat): Seen {
    var e := Lookup(mem, d, v);
    if e.None? then Unmapped else Mapped(e.page, e.perm, Contents(mem, e.page, v))
  }

  function Contents(mem: map<int, Page>, p: int, v: nat): Bytes {
    if v < USERPAGES && p in mem && mem[p].Data? then mem[p].bytes else []
  }

  // ---- ownership ----------------------------------------------------------

  predicate RootOk(w: World, d: int) {
    d in w.dirs ==> IsTable(w.mem, d) && d in w.uses && w.uses[d] == Root(d)
  }

  predicate TabOk(w: World, d: int, x: nat) {
    d in w.dirs && Entry(w.mem, d, x).Pte? ==>
      var q := Entry(w.mem, d, x).page; IsTable(w.mem, q) && q in w.uses && w.uses[q] == Tab(d, x)
  }

  predicate LeafOk(w: World, d: int, v: nat) {
    d in w.dirs && v < USERPAGES && Lookup(w.mem, d, v).Pte? ==>
      var q := Lookup(w.mem, d, v).page; q in w.mem && w.mem[q].Data? && q in w.uses && w.uses[q] == Leaf(d, v)
  }

  predicate UseOk(w: World, p: int) {
    p in w.uses ==>
      w.uses[p].dir in w.dirs &&
      match w.uses[p]
      case Root(d) => p == d
      case Tab(d, x) => Entry(w.mem, d, x).Pte? && Entry(w.mem, d, x).page == p
      case Leaf(d, v) => v < USERPAGES && Lookup(w.mem, d, v).Pte? && Lookup(w.mem, d, v).page == p
  }

  /** The pages in uses are exactly those that the directories refer to, each for
      one purpose of one directory. */
  ghost predicate Sound(w: World) {
    && (forall d :: RootOk(w, d)) && (forall d, x: nat :: TabOk(w, d, x))
    && (forall d, v: nat :: LeafOk(w, d, v)) && (forall p :: UseOk(w, p))
  }

  ghost function OwnedBy(uses: map<int, Use>, d: int): set<int> {
    set p | p in uses && uses[p].dir == d
  }

  /** No page belongs to two directories, or to one twice. */
  lemma NoSharing(w: World, d: int, v: nat, d': int, v': nat)
    requires Sound(w) && d in w.dirs && d' in w.dirs && v < USERPAGES && v' < USERPAGES
    requires Lookup(w.mem, d, v).Pte? && Lookup(w.mem, d', v').Pte?
    requires Lookup(w.mem, d, v).page == Lookup(w.mem, d', v').page
    ensures d == d' && v == v'
  {
    assert LeafOk(w, d, v) && LeafOk(w, d', v');
  }

  // ---- changes that a directory does not notice ---------------------------

  /** The entries on the way to page v of directory d, and the page, are as
      before. */
  predicate PathKept(w: World, mem: map<int, Page>, d: int, v: nat) {
    && Entry(mem, d, Pdx(v)) == Entry(w.mem, d, Pdx(v))
    && (Entry(w.mem, d, Pdx(v)).Pte? ==>
         var t := Entry(w.mem, d, Pdx(v)).page;
         && Entry(mem, t, Ptx(v)) == Entry(w.mem, t, Ptx(v))
         && (v < USERPAGES && Lookup(w.mem, d, v).Pte? ==>
              var q := Lookup(w.mem, d, v).page; q in mem && q in w.mem && mem[q] == w.mem[q]))
  }

  lemma PathSees(w: World, mem: map<int, Page>, d: int, v: nat)
    requires PathKept(w, mem, d, v)
    ensures Lookup(mem, d, v) == Lookup(w.mem, d, v) && See(mem, d, v) == See(w.mem, d, v)
    ensures Entry(mem, d, Pdx(v)) == Entry(w.mem, d, Pdx(v))
  {
  }

  /** A change of page p is noticed only on the way through p. */
  lemma Elsewhere(w: World, p: int, page: Page, d: int, v: nat)
    requires Sound(w) && d in w.dirs
    requires p in w.uses ==> w.uses[p] != Root(d) && w.uses[p] != Tab(d, Pdx(v)) && w.uses[p] != Leaf(d, v)
    ensures PathKept(w, w.mem[p := page], d, v)
  {
    assert RootOk(w, d) && TabOk(w, d, Pdx(v)) && LeafOk(w, d, v);
  }

  /** A page that belongs to no directory may be written freely. */
  lemma Outside(w: World, p: int, page: Page)
    requires Sound(w) && p !in w.uses
    ensures Sound(w.(mem := w.mem[p := page]))
    ensures forall d, v: nat :: d in w.dirs ==> See(w.mem[p := page], d, v) == See(w.mem, d, v)
  {
    var w' := w.(mem := w.mem[p := page]);
    forall d, v: nat | d in w.dirs
      ensures See(w'.mem, d, v) == See(w.mem, d, v) && Lookup(w'.mem, d, v) == Lookup(w.mem, d, v)
    {
      Elsewhere(w, p, page, d, v);
      PathSees(w, w'.mem, d, v);
    }
    forall d ensures RootOk(w', d) { assert RootOk(w, d); }
    forall d, x: nat ensures TabOk(w', d, x) { assert RootOk(w, d) && TabOk(w, d, x); }
    forall d, v: nat ensures LeafOk(w', d, v) { assert LeafOk(w, d, v); }
    forall q ensures UseOk(w', q) {
      assert UseOk(w, q);
      if q in w.uses {
        assert RootOk(w, w.uses[q].dir);
      }
    }
  }

  // ---- changes of one entry -----------------------------------------------

  function NoEntries(): (r: seq<Pte>)
    ensures |r| == NENTRIES && forall i :: 0 <= i < NENTRIES ==> r[i] == None
  {
    seq(NENTRIES, _ => None)
  }

  function SetEntry(mem: map<int, Page>, t: int, i: nat, e: Pte): (mem': map<int, Page>)
    requires IsTable(mem, t) && i < NENTRIES
    ensures IsTable(mem', t) && forall j: nat :: Entry(mem', t, j) == if j == i then e else Entry(mem, t, j)
    ensures forall p :: p != t ==> (p in mem <==> p in mem') && (p in mem ==> mem'[p] == mem[p])
  {
    mem[t := Table(mem[t].ptes[i := e])]
  }

  /** Setting entry i of table t is noticed only on the way through it. */
  lemma EntryElsewhere(w: World, t: int, i: nat, e: Pte, d: int, v: nat)
    requires Sound(w) && d in w.dirs && IsTable(w.mem, t) && i < NENTRIES && t in w.uses && !w.uses[t].Leaf?
    requires !(t == d && i == Pdx(v)) && !(w.uses[t] == Tab(d, Pdx(v)) && i == Ptx(v))
    ensures PathKept(w, SetEntry(w.mem, t, i, e), d, v)
  {
    assert RootOk(w, d) && TabOk(w, d, Pdx(v)) && LeafOk(w, d, v);
  }

  /** A new, empty table q for the range x of directory d. */
  function WithTable(w: World, d: int, x: nat, q: int, perm: int): World
    requires IsTable(w.mem, d) && x < NENTRIES
  {
    World(SetEntry(w.mem, d, x, Pte(q, perm)), w.uses[q := Tab(d, x)], w.dirs)
  }

  lemma AddTable(w: World, d: int, x: nat, q: int, perm: int)
    requires Sound(w) && d in w.dirs && IsTable(w.mem, d) && x < NENTRIES && Entry(w.mem, d, x).None?
    requires q !in w.uses && q in w.mem && w.mem[q] == Table(NoEntries())
    ensures Sound(WithTable(w, d, x, q, perm))
    ensures forall d', v: nat :: d' in w.dirs ==> See(WithTable(w, d, x, q, perm).mem, d', v) == See(w.mem, d', v)
  {
    var w' := WithTable(w, d, x, q, perm);
    assert RootOk(w, d);
    forall d', v: nat | d' in w.dirs
      ensures See(w'.mem, d', v) == See(w.mem, d', v) && Lookup(w'.mem, d', v) == Lookup(w.mem, d', v)
    {
      if d' == d && Pdx(v) == x {
        assert Entry(w'.mem, q, Ptx(v)) == None;
      } else {
        EntryElsewhere(w, d, x, Pte(q, perm), d', v);
        PathSees(w, w'.mem, d', v);
      }
    }
    forall d' ensures RootOk(w', d') { assert RootOk(w, d'); }
    forall d', x': nat ensures TabOk(w', d', x') { assert RootOk(w, d') && TabOk(w, d', x'); }
    forall d', v: nat ensures LeafOk(w', d', v) { assert LeafOk(w, d', v); }
    forall p ensures UseOk(w', p) {
      assert UseOk(w, p);
      if p in w.uses {
        assert RootOk(w, w.uses[p].dir);
      }
    }
  }

  /** Entry v of directory d, in the table t that it has for it, becomes e. */
  function WithLeaf(w: World, t: int, v: nat, e: Pte, uses: map<int, Use>): World
    requires IsTable(w.mem, t)
  {
    World(SetEntry(w.mem, t, Ptx(v), e), uses, w.dirs)
  }

  predicate HasTable(w: World, d: int, v: nat, t: int) {
    d in w.dirs && Entry(w.mem, d, Pdx(v)).Pte? && Entry(w.mem, d, Pdx(v)).page == t
  }

  lemma LeafSees(w: World, d: int, v: nat, t: int, e: Pte, d': int, u: nat)
    requires Sound(w) && HasTable(w, d, v, t) && d' in w.dirs
    ensures IsTable(w.mem, t)
    ensures var mem := SetEntry(w.mem, t, Ptx(v), e);
      if d' == d && u == v then Lookup(mem, d, v) == e else PathKept(w, mem, d', u)
  {
    assert RootOk(w, d) && TabOk(w, d, Pdx(v));
    if d' == d && Pdx(u) == Pdx(v) && Ptx(u) == Ptx(v) {
      PageOf(u, v);
      assert u == v;
    } else {
      assert RootOk(w, d');
      EntryElsewhere(w, t, Ptx(v), e, d', u);
    }
  }

  /** uses is what leaf v of directory d becoming e makes of w's: the page that
      was there is given up, and the one now there belongs to it. */
  ghost predicate LeafChange(w: World, d: int, v: nat, e: Pte, uses: map<int, Use>) {
    && (e.Pte? && v < USERPAGES ==>
         e.page in w.mem && w.mem[e.page].Data? && e.page in uses && uses[e.page] == Leaf(d, v))
    && (forall p :: p in w.uses && w.uses[p] != Leaf(d, v) ==> p in uses && uses[p] == w.uses[p])
    && (forall p :: p in uses && uses[p] != Leaf(d, v) ==> p in w.uses && w.uses[p] == uses[p])
    && (forall p :: p in uses && uses[p] == Leaf(d, v) ==> e.Pte? && p == e.page && v < USERPAGES)
  }

  lemma LeafStays(w: World, d: int, v: nat, t: int, e: Pte, uses: map<int, Use>, d': int, u: nat)
    requires Sound(w) && HasTable(w, d, v, t) && IsTable(w.mem, t) && LeafChange(w, d, v, e, uses)
    ensures LeafOk(WithLeaf(w, t, v, e, uses), d', u)
  {
    var w' := WithLeaf(w, t, v, e, uses);
    assert RootOk(w, d) && TabOk(w, d, Pdx(v)) && LeafOk(w, d', u);
    if d' in w.dirs {
      LeafSees(w, d, v, t, e, d', u);
      if !(d' == d && u == v) {
        PathSees(w, w'.mem, d', u);
      }
    }
  }

  lemma UseStays(w: World, d: int, v: nat, t: int, e: Pte, uses: map<int, Use>, p: int)
    requires Sound(w) && HasTable(w, d, v, t) && IsTable(w.mem, t) && LeafChange(w, d, v, e, uses)
    ensures UseOk(WithLeaf(w, t, v, e, uses), p)
  {
    var w' := WithLeaf(w, t, v, e, uses);
    assert RootOk(w, d) && TabOk(w, d, Pdx(v)) && UseOk(w, p);
    if p in uses {
      match uses[p]
      case Leaf(d', u) =>
        LeafSees(w, d, v, t, e, d', u);
        if !(d' == d && u == v) {
          PathSees(w, w'.mem, d', u);
        }
      case Tab(d', x) =>
        assert RootOk(w, d');
      case Root(_) =>
    }
  }

  /** Setting a leaf keeps the world sound, and no other page of any directory
      notices it. */
  lemma LeafKeeps(w: World, d: int, v: nat, t: int, e: Pte, uses: map<int, Use>)
    requires Sound(w) && HasTable(w, d, v, t) && IsTable(w.mem, t) && LeafChange(w, d, v, e, uses)
    ensures Sound(WithLeaf(w, t, v, e, uses))
    ensures Lookup(WithLeaf(w, t, v, e, uses).mem, d, v) == e
    ensures forall d', u: nat :: d' in w.dirs && !(d' == d && u == v) ==>
      See(WithLeaf(w, t, v, e, uses).mem, d', u) == See(w.mem, d', u)
  {
    var w' := WithLeaf(w, t, v, e, uses);
    assert RootOk(w, d) && TabOk(w, d, Pdx(v));
    forall d', u: nat | d' in w.dirs && !(d' == d && u == v) ensures See(w'.mem, d', u) == See(w.mem, d', u) {
      LeafSees(w, d, v, t, e, d', u);
      PathSees(w, w'.mem, d', u);
    }
    LeafSees(w, d, v, t, e, d, v);
    forall d' ensures RootOk(w', d') { assert RootOk(w, d'); }
    forall d', x: nat ensures TabOk(w', d', x) { assert RootOk(w, d') && TabOk(w, d', x); }
    forall d', u: nat ensures LeafOk(w', d', u) { LeafStays(w, d, v, t, e, uses, d', u); }
    forall p ensures UseOk(w', p) { UseStays(w, d, v, t, e, uses, p); }
  }

  // ---- directories --------------------------------------------------------

  /** A fresh directory q. */
  lemma AddRoot(w: World, q: int)
    requires Sound(w) && q !in w.uses && q in w.mem && w.mem[q] == Table(NoEntries()) && q !in w.dirs
    ensures Sound(World(w.mem, w.uses[q := Root(q)], w.dirs + {q}))
    ensures forall v: nat :: See(w.mem, q, v) == Unmapped
  {
    var w' := World(w.mem, w.uses[q := Root(q)], w.dirs + {q});
    forall d ensures RootOk(w', d) { assert RootOk(w, d); }
    forall d, x: nat ensures TabOk(w', d, x) { assert TabOk(w, d, x); }
    forall d, v: nat ensures LeafOk(w', d, v) { assert LeafOk(w, d, v); }
    forall p ensures UseOk(w', p) { assert UseOk(w, p); }
  }

  /** Giving up directory d gives up exactly the pages that belong to it. */
  lemma DropDir(w: World, d: int)
    requires Sound(w) && d in w.dirs
    ensures Sound(World(w.mem, w.uses - OwnedBy(w.uses, d), w.dirs - {d}))
  {
    var w' := World(w.mem, w.uses - OwnedBy(w.uses, d), w.dirs - {d});
    forall e ensures RootOk(w', e) { assert RootOk(w, e); }
    forall e, x: nat ensures TabOk(w', e, x) { assert TabOk(w, e, x); }
    forall e, v: nat ensures LeafOk(w', e, v) { assert LeafOk(w, e, v); }
    forall p ensures UseOk(w', p) { assert UseOk(w, p); }
  }

  /** What a directory without user pages owns: itself and its tables. */
  lemma BareDir(w: World, d: int, p: int)
    requires Sound(w) && d in w.dirs && forall v: nat :: v < USERPAGES ==> Lookup(w.mem, d, v).None?
    ensures p in OwnedBy(w.uses, d) <==>
            p == d || exists x: nat :: Entry(w.mem, d, x).Pte? && Entry(w.mem, d, x).page == p
  {
    assert RootOk(w, d) && UseOk(w, p);
    if x: nat :| Entry(w.mem, d, x).Pte? && Entry(w.mem, d, x).page == p {
      assert TabOk(w, d, x);
    }
  }
}
