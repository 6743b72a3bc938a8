/** Physical pages and address spaces: kalloc.c and the page-table code of vm.c.
    The calls do not interleave. */
module AddressSpace {

  import opened PageTables
  import opened TableAccounts

  const PGSIZE: nat := 4096
  const KERNBASE: nat := 0x8000_0000
  const PTE_W: int := 2
  const PTE_WU: int := 6

  // ---- the free list and the pages ----------------------------------------

  ghost function First(free: seq<int>, i: nat): int {
    if i < |free| then free[i] else NULL
  }

  ghost predicate LinkOk(mem: map<int, Page>, free: seq<int>, i: nat) {
    i < |free| ==> free[i] in mem && mem[free[i]] == Run(First(free, i + 1))
  }

  /** free lists the pages on kmem.freelist. */
  ghost predicate Listed(freelist: int, mem: map<int, Page>, free: seq<int>) {
    && freelist == First(free, 0) && (forall i: nat :: LinkOk(mem, free, i))
    && forall i, j :: 0 <= i < j < |free| ==> free[i] != free[j]
  }

  /** Each page is free, or belongs to a directory, or is in use otherwise. */
  ghost predicate PageOk(pages: set<int>, free: seq<int>, uses: map<int, Use>, other: set<int>, p: int) {
    if p in pages then
      p != NULL && if p in free then p !in uses && p !in other else (p in uses <==> p !in other)
    else p !in free && p !in uses && p !in other
  }

  ghost predicate Divided(pages: set<int>, free: seq<int>, uses: map<int, Use>, other: set<int>) {
    forall p :: PageOk(pages, free, uses, other, p)
  }

  /** No page is lost or counted twice. */
  lemma PagesConserved(freelist: int, mem: map<int, Page>, pages: set<int>, free: seq<int>, uses: map<int, Use>,
                       other: set<int>)
    requires Listed(freelist, mem, free) && Divided(pages, free, uses, other)
    ensures |pages| == |free| + |uses| + |other|
  {
    var listed := set p | p in free;
    FreeCount(free);
    forall p ensures p in pages <==> p in listed + uses.Keys + other {
      assert PageOk(pages, free, uses, other, p);
    }
    forall p ensures !(p in listed && p in uses.Keys) && !((p in listed || p in uses.Keys) && p in other) {
      assert PageOk(pages, free, uses, other, p);
    }
    assert pages == listed + uses.Keys + other && listed !! uses.Keys && listed + uses.Keys !! other;
  }

  lemma {:induction false} FreeCount(free: seq<int>)
    requires forall i, j :: 0 <= i < j < |free| ==> free[i] != free[j]
    ensures |set p | p in free| == |free|
  {
    if free != [] {
      var rest, last := free[..|free| - 1], free[|free| - 1];
      FreeCount(rest);
      assert (set p | p in free) == (set p | p in rest) + {last};
    }
  }

  lemma ListedKept(freelist: int, mem: map<int, Page>, free: seq<int>, mem': map<int, Page>)
    requires Listed(freelist, mem, free) && forall p :: p in free && p in mem ==> p in mem' && mem'[p] == mem[p]
    ensures Listed(freelist, mem', free)
  {
    forall i: nat ensures LinkOk(mem', free, i) {
      assert LinkOk(mem, free, i);
    }
  }

  // ---- what the address spaces show ---------------------------------------

  predicate SameAt(m0: map<int, Page>, m1: map<int, Page>, e: int, u: nat) {
    See(m1, e, u) == See(m0, e, u)
  }

  /** All directories see what they saw, except d at pages lo to hi. */
  ghost predicate Kept(m0: map<int, Page>, m1: map<int, Page>, dirs: set<int>, d: int, lo: nat, hi: nat) {
    forall e, u: nat :: e in dirs && !(e == d && lo <= u < hi) ==> SameAt(m0, m1, e, u)
  }

  lemma KeptTwice(m0: map<int, Page>, m1: map<int, Page>, m2: map<int, Page>, dirs: set<int>, d: int, lo: nat, hi: nat,
                  lo': nat, hi': nat)
    requires Kept(m0, m1, dirs, d, lo, hi) && Kept(m1, m2, dirs, d, lo', hi')
    requires lo' < hi' ==> lo <= lo' && hi' <= hi
    ensures Kept(m0, m2, dirs, d, lo, hi)
  {
    forall e, u: nat | e in dirs && !(e == d && lo <= u < hi) ensures SameAt(m0, m2, e, u) {
      assert SameAt(m0, m1, e, u) && SameAt(m1, m2, e, u);
    }
  }

  /** Pages have come to directory d and none has left any. */
  ghost predicate Grown(uses: map<int, Use>, uses': map<int, Use>, d: int) {
    && (forall p :: p in uses ==> p in uses' && uses'[p] == uses[p])
    && (forall p :: p in uses' && p !in uses ==> uses'[p].dir == d)
  }

  function Up(sz: nat): (v: nat)
    ensures forall u: nat :: PGSIZE * u < sz <==> u < v
  {
    (sz + PGSIZE - 1) / PGSIZE
  }

  function Zeros(): Bytes {
    seq(PGSIZE, _ => 0)
  }

  function Untouched(lo: nat, hi: nat): (m: map<int, Page>)
    requires lo <= hi
    ensures forall p :: p in m <==> lo <= p < hi
    decreases hi
  {
    if lo == hi then map[] else Untouched(lo, hi - 1)[hi - 1 := Data([])]
  }

  /** How mappages ends: done, short of a page for a table, or in panic. */
  datatype Mapping = Done | NoTable | Remap

  /** A page that its holder may hand to a directory. */
  predicate InHand(mem: map<int, Page>, other: set<int>, p: int) {
    p in other && p in mem && mem[p].Data?
  }

  /** Of k pages mapped from v to pa on, those that pass to the directory. */
  ghost function Handed(v: nat, pa: int, k: nat): (ps: set<int>)
    ensures forall p :: p in ps ==> pa <= p < pa + k
    ensures v >= USERPAGES ==> ps == {}
  {
    if k == 0 then {}
    else if v + k - 1 < USERPAGES then Handed(v, pa, k - 1) + {pa + k - 1}
    else Handed(v, pa, k - 1)
  }

  class Vm {
    var freelist: int
    var mem: map<int, Page>
    ghost var free: seq<int>
    ghost var uses: map<int, Use>
    ghost var dirs: set<int>
    ghost var other: set<int>
    ghost const pages: set<int>
    const dataPage: nat                  // where the kernel's data begins

    ghost function W(): World
      reads this
    {
      World(mem, uses, dirs)
    }

    /** Conservation: every page is on the free list, or belongs to exactly one
        directory for exactly one purpose, or is otherwise in use. */
    ghost predicate Valid()
      reads this
    {
      && Listed(freelist, mem, free) && Divided(pages, free, uses, other) && Sound(W())
      && (forall p :: p in pages ==> p in mem) && 0x100 < dataPage < 0xE000
    }

    /** kinit: freerange puts the pages from lo to hi on the list, one by one. */
    constructor (lo: nat, hi: nat, dataPage: nat)
      requires 0 < lo <= hi && 0x100 < dataPage < 0xE000
      ensures Valid() && dirs == {} && uses == map[] && other == {}
      ensures |free| == hi - lo && forall p :: p in free <==> lo <= p < hi
    {
      freelist, this.dataPage := NULL, dataPage;
      mem := Untouched(lo, hi);
      free, uses, dirs := [], map[], {};
      pages := Untouched(lo, hi).Keys;
      other := Untouched(lo, hi).Keys;
      new;
      var p := lo;
      while p < hi
        invariant lo <= p <= hi && Valid() && dirs == {} && uses == map[] && |free| == p - lo
        invariant forall q :: q in other <==> p <= q < hi
        invariant forall q :: q in free <==> lo <= q < p
      {
        KFree(p);
        p := p + 1;
      }
      assert forall q :: q !in other;
    }

    /** kalloc. */
    method KAlloc() returns (r: int)
      requires Valid()
      modifies this`freelist, this`free, this`other
      ensures Valid() && (r == NULL <==> old(free) == [])
      ensures r == NULL ==> free == old(free) && other == old(other)
      ensures r != NULL ==>
        r == old(free)[0] && free == old(free)[1..] && other == old(other) + {r} && r !in uses && r !in old(other)
    {
      assert LinkOk(mem, free, 0) && PageOk(pages, free, uses, other, First(free, 0));
      r := freelist;
      if r != NULL {
        freelist := mem[r].next;
        free := free[1..];
        other := other + {r};
        PoppedOk(pages, mem, old(free), uses, old(other));
      }
    }

    /** kfree. */
    method KFree(p: int)
      requires Valid() && p in other
      modifies this`freelist, this`mem, this`free, this`other
      ensures Valid() && free == [p] + old(free) && other == old(other) - {p}
      ensures mem == old(mem)[p := Run(old(freelist))] && Kept(old(mem), mem, dirs, NULL, 0, 0)
    {
      assert PageOk(pages, free, uses, other, p);
      Outside(W(), p, Run(freelist));
      mem := mem[p := Run(freelist)];
      freelist := p;
      free := [p] + free;
      other := other - {p};
      PushedOk(pages, old(freelist), old(mem), old(free), uses, old(other), p);
    }

    /** Writing a whole page that no directory has yet, as memset and memmove do. */
    method Fill(p: int, page: Page)
      requires Valid() && p in other
      modifies this`mem
      ensures Valid() && mem == old(mem)[p := page] && Kept(old(mem), mem, dirs, NULL, 0, 0)
    {
      assert PageOk(pages, free, uses, other, p);
      Outside(W(), p, page);
      ListedKept(freelist, mem, free, mem[p := page]);
      mem := mem[p := page];
    }

    /** walkpgdir: the table that holds the entry for page v, if there is one or
        one may be added. */
    method WalkPgdir(d: int, v: nat, alloc: bool) returns (t: int)
      requires Valid() && d in dirs && v < ALLPAGES
      modifies this`freelist, this`mem, this`free, this`uses, this`other
      ensures Valid() && other == old(other) && Kept(old(mem), mem, dirs, NULL, 0, 0) && Grown(old(uses), uses, d)
      ensures Intact(old(mem), mem, other)
      ensures t == NULL ==> mem == old(mem) && uses == old(uses) && free == old(free) && freelist == old(freelist)
      ensures t == NULL <==> Entry(old(mem), d, Pdx(v)).None? && (!alloc || old(free) == [])
      ensures t != NULL ==> HasTable(W(), d, v, t) && IsTable(mem, t)
      ensures Entry(old(mem), d, Pdx(v)).Pte? ==>
        mem == old(mem) && uses == old(uses) && free == old(free) && freelist == old(freelist)
      ensures free == old(free) || (|old(free)| > 0 && free == old(free)[1..])
      ensures TabsWithin(old(mem), mem, d, {Pdx(v)})
    {
      OtherPages(pages, free, uses, other, mem);
      TablePage(W(), pages, free, other, d, Pdx(v));
      var e := Entry(mem, d, Pdx(v));
      if e.Pte? {
        return e.page;
      }
      if !alloc {
        return NULL;
      }
      t := KAlloc();
      if t == NULL {
        return NULL;
      }
      ghost var f1, o1 := free, other;
      Fill(t, Table(NoEntries()));
      ghost var m1 := mem;
      AddTable(W(), d, Pdx(v), t, PTE_WU);
      mem := SetEntry(mem, d, Pdx(v), Pte(t, PTE_WU));
      uses := uses[t := Tab(d, Pdx(v))];
      other := other - {t};
      GivenOk(pages, f1, old(uses), o1, t, Tab(d, Pdx(v)));
      ListedKept(freelist, m1, free, mem);
      KeptTwice(old(mem), m1, mem, dirs, NULL, 0, 0, 0, 0);
    }

    /** One turn of mappages: page v of directory d becomes pa, which for a user
        page passes to the directory. */
    method MapOne(d: int, v: nat, pa: int, perm: int) returns (r: Mapping)
      requires Valid() && d in dirs && v < ALLPAGES && (v < USERPAGES ==> InHand(mem, other, pa))
      modifies this`freelist, this`mem, this`free, this`uses, this`other
      ensures Valid() && Kept(old(mem), mem, dirs, d, v, v + 1) && Grown(old(uses), uses, d)
      ensures r != Done ==> free == old(free) && other == old(other) && Kept(old(mem), mem, dirs, NULL, 0, 0)
      ensures r == Remap <==> !IsFree(old(mem), d, v)
      ensures r == NoTable ==> free == []
      ensures TabsWithin(old(mem), mem, d, if r == Done then {Pdx(v)} else {})
      ensures r == NoTable ==> !HasTab(mem, d, Pdx(v))
      ensures r == Done ==> other == (if v < USERPAGES then old(other) - {pa} else old(other))
      ensures r == Done ==> See(mem, d, v) == Mapped(pa, perm, Contents(old(mem), pa, v)) && |free| + 1 >= |old(free)|
      ensures Intact(old(mem), mem, other)
    {
      var t := WalkPgdir(d, v, true);
      if t == NULL {
        return NoTable;
      }
      assert SameAt(old(mem), mem, d, v);
      if Entry(mem, t, Ptx(v)).Pte? {
        return Remap;
      }
      ghost var m1, u1, o1 := mem, uses, other;
      if v < USERPAGES {
        GivenOk(pages, free, uses, other, pa, Leaf(d, v));
        LeafGiven(W(), pages, free, other, d, v, pa, perm);
        uses := uses[pa := Leaf(d, v)];
        other := other - {pa};
      } else {
        KernelLeaf(W(), d, v, Pte(pa, perm));
      }
      TablePage(World(m1, u1, dirs), pages, free, o1, d, Pdx(v));
      LeafKeeps(World(m1, u1, dirs), d, v, t, Pte(pa, perm), uses);
      mem := SetEntry(mem, t, Ptx(v), Pte(pa, perm));
      TabsStay(old(mem), m1, mem, d, {Pdx(v)});
      ListedKept(freelist, m1, free, mem);
      OneChange(m1, mem, dirs, d, v);
      KeptTwice(old(mem), m1, mem, dirs, d, v, v + 1, v, v + 1);
      r := Done;
    }

    /** Since the memory was m0, the uses u0, the pages in hand o0 and n0 pages were
        free, k pages from v on have been mapped to pa and the pages after it. */
    ghost predicate MapDone(m0: map<int, Page>, u0: map<int, Use>, o0: set<int>, n0: nat,
                            d: int, v: nat, k: nat, pa: int, perm: int)
      reads this
    {
      && MappedTo(m0, mem, dirs, d, v, k, pa, perm) && Grown(u0, uses, d)
      && other == o0 - Handed(v, pa, k) && Intact(m0, mem, other) && |free| + k >= n0
      && TabsWithin(m0, mem, d, Window(v, k))
    }

    /** One turn of mappages' loop after k of them. */
    method MapTurn(d: int, a: nat, to: int, perm: int, ghost v: nat, ghost k: nat, ghost pa: int,
                   ghost m0: map<int, Page>, ghost u0: map<int, Use>, ghost o0: set<int>, ghost n0: nat)
      returns (r: Mapping)
      requires Valid() && d in dirs && a == v + k < ALLPAGES && to == pa + k
      requires MapDone(m0, u0, o0, n0, d, v, k, pa, perm) && (a < USERPAGES ==> InHand(m0, o0, to))
      modifies this`freelist, this`mem, this`free, this`uses, this`other
      ensures Valid() && MapDone(m0, u0, o0, n0, d, v, if r == Done then k + 1 else k, pa, perm)
      ensures r != Done ==> (r == Remap <==> !IsFree(m0, d, a))
      ensures r == NoTable ==> free == [] && !HasTab(mem, d, Pdx(a))
    {
      ghost var m1, o1 := mem, other;
      assert SameAt(m0, mem, d, a);
      r := MapOne(d, a, to, perm);
      IntactTwice(m0, m1, mem, o1, other);
      TabsTwice(m0, m1, mem, d, Window(v, k), if r == Done then {Pdx(a)} else {});
      if r == Done {
        MappedMore(m0, m1, mem, dirs, d, v, k, pa, perm);
      } else {
        MappedStays(m0, m1, mem, dirs, d, v, k, pa, perm);
      }
    }

    /** mappages: n pages from v on become pa and the pages after it.  k counts
        those that are done; the next one is mapped already, or there is no page
        left for its table, if they are not all.  User pages pass to the
        directory. */
    method MapPages(d: int, v: nat, n: nat, pa: int, perm: int) returns (r: Mapping, ghost k: nat)
      requires Valid() && d in dirs && 0 < n && v + n <= ALLPAGES
      requires forall p :: pa <= p < pa + n && v + p - pa < USERPAGES ==> InHand(mem, other, p)
      modifies this`freelist, this`mem, this`free, this`uses, this`other
      ensures Valid() && k <= n && (r == Done <==> k == n) && Grown(old(uses), uses, d)
      ensures MappedTo(old(mem), mem, dirs, d, v, k, pa, perm)
      ensures r != Done ==> (r == Remap <==> !IsFree(old(mem), d, v + k))
      ensures other == old(other) - Handed(v, pa, k)
      ensures |free| + k >= |old(free)| && (r == NoTable ==> free == [] && !HasTab(mem, d, Pdx(v + k)))
      ensures TabsWithin(old(mem), mem, d, Window(v, k))
      ensures Intact(old(mem), mem, other)
    {
      OtherPages(pages, free, uses, other, mem);
      ghost var m0, u0, o0, n0 := mem, uses, other, |free|;
      var a, last, to := v, v + n - 1, pa;
      k := 0;
      while true
        invariant Valid() && k < n && a == v + k && to == pa + k && MapDone(m0, u0, o0, n0, d, v, k, pa, perm)
        decreases n - k
      {
        r := MapTurn(d, a, to, perm, v, k, pa, m0, u0, o0, n0);
        if r != Done {
          return;
        }
        k := k + 1;
        if a == last {
          return;
        }
        a := a + 1;
        to := to + 1;
      }
    }

    /** Giving back user page v, whose entry is in table t. */
    method Unmap(d: int, v: nat, t: int)
      requires Valid() && HasTable(W(), d, v, t) && v < USERPAGES && Lookup(mem, d, v).Pte?
      modifies this`freelist, this`mem, this`free, this`uses, this`other
      ensures Valid() && other == old(other) && See(mem, d, v) == Unmapped && Kept(old(mem), mem, dirs, d, v, v + 1)
      ensures var pa := Lookup(old(mem), d, v).page;
        free == [pa] + old(free) && uses == old(uses) - {pa} && pa in old(uses) && old(uses)[pa] == Leaf(d, v)
    {
      TablePage(W(), pages, free, other, d, Pdx(v));
      var pa := Entry(mem, t, Ptx(v)).page;
      LeafTaken(W(), d, v, pa);
      LeafKeeps(W(), d, v, t, None, uses - {pa});
      mem := SetEntry(mem, t, Ptx(v), None);
      uses := uses - {pa};
      other := other + {pa};
      ListedKept(freelist, old(mem), free, mem);
      TakenOk(pages, free, old(uses), old(other), {pa});
      OtherPages(pages, free, uses, other, mem);
      OneChange(old(mem), mem, dirs, d, v);
      ghost var m1 := mem;
      KFree(pa);
      KeptTwice(old(mem), m1, mem, dirs, d, v, v + 1, 0, 0);
      assert SameAt(m1, mem, d, v);
      assert pa !in old(other) by { assert PageOk(pages, old(free), old(uses), old(other), pa); }
    }

    /** deallocuvm's work on page v, when there is a table for it. */
    method ClearPage(d: int, v: nat) returns (table: bool)
      requires Valid() && d in dirs && v < USERPAGES
      modifies this`freelist, this`mem, this`free, this`uses, this`other
      ensures Valid() && other == old(other) && Shrunk(old(uses), uses, d) && Kept(old(mem), mem, dirs, d, v, v + 1)
      ensures See(mem, d, v) == Unmapped && table == Entry(old(mem), d, Pdx(v)).Pte?
      ensures free == if Lookup(old(mem), d, v).Pte? then [Lookup(old(mem), d, v).page] + old(free) else old(free)
      ensures !table ==> mem == old(mem) && uses == old(uses)
    {
      var t := WalkPgdir(d, v, false);
      table := t != NULL;
      if table && Entry(mem, t, Ptx(v)).Pte? {
        Unmap(d, v, t);
      }
    }

    /** deallocuvm.  Ranges without a table are skipped whole; the pages freed,
        and their order, are those of a loop over every page. */
    method DeallocUvm(d: int, oldsz: nat, newsz: nat) returns (r: nat)
      requires Valid() && d in dirs && oldsz <= KERNBASE
      modifies this`freelist, this`mem, this`free, this`uses, this`other
      ensures Valid() && other == old(other) && r == (if newsz >= oldsz then oldsz else newsz)
      ensures Kept(old(mem), mem, dirs, d, Up(newsz), Up(oldsz)) && Free(mem, d, Up(newsz), Up(oldsz))
      ensures free == PageByPage(old(free), old(mem), d, Up(newsz), Up(oldsz))
      ensures Shrunk(old(uses), uses, d)
    {
      if newsz >= oldsz {
        UpMono(oldsz, newsz);
        return oldsz;
      }
      ghost var lo, hi := Up(newsz), Up(oldsz);
      UpMono(oldsz, KERNBASE);
      var v: nat := Up(newsz);
      var a: nat := PGSIZE * v;
      while a < oldsz
        invariant a == PGSIZE * v
        invariant Valid() && other == old(other) && Shrunk(old(uses), uses, d)
        invariant Cleared(old(mem), mem, dirs, d, lo, v, hi, old(free), free)
        decreases hi - Least(v, hi)
      {
        assert v < hi;
        assert SameAt(old(mem), mem, d, v);
        ghost var m1, f1 := mem, free;
        var table := ClearPage(d, v);
        if table {
          ClearedOne(old(mem), m1, mem, dirs, d, lo, v, hi, old(free), f1, free);
        } else {
          ClearedSkip(old(mem), mem, dirs, d, lo, v, hi, old(free), free);
          a, v := LastOfTable(a, v), LastPage(v);
        }
        a := a + PGSIZE;
        v := v + 1;
      }
      return newsz;
    }

    /** freevm: everything that directory d owned, and nothing else, becomes free. */
    method FreeVm(d: int)
      requires Valid() && d in dirs
      modifies this`freelist, this`mem, this`free, this`uses, this`other, this`dirs
      ensures Valid() && dirs == old(dirs) - {d} && other == old(other)
      ensures uses == old(uses) - OwnedBy(old(uses), d) && Kept(old(mem), mem, dirs, NULL, 0, 0)
      ensures forall p :: p in free <==> p in old(free) || p in OwnedBy(old(uses), d)
    {
      var r := DeallocUvm(d, KERNBASE, 0);
      UpMono(0, 0);
      ghost var w1, o1, owned := W(), other, OwnedBy(uses, d);
      TablePage(w1, pages, free, o1, d, 0);
      OtherPages(pages, free, uses, other, mem);
      DropDir(W(), d);
      TakenOk(pages, free, uses, other, owned);
      ShrunkDrop(old(uses), uses, d);
      KeptOthers(old(mem), mem, dirs, d, 0, USERPAGES);
      uses := uses - owned;
      dirs := dirs - {d};
      other := other + owned;
      forall p ensures Remains(w1.mem, d, 0, o1, other, p) {
        BareTables(w1, d, p);
      }
      for i := 0 to NENTRIES
        invariant Valid() && dirs == old(dirs) - {d} && uses == w1.uses - owned
        invariant Kept(old(mem), mem, dirs, NULL, 0, 0)
        invariant d in mem && mem[d] == w1.mem[d]
        invariant forall p :: Remains(w1.mem, d, i, o1, other, p)
      {
        ghost var m2, o2 := mem, other;
        RemainsStep(w1, pages, o1, d, i, other);
        if Entry(mem, d, i).Pte? {
          KFree(Entry(mem, d, i).page);
          KeptTwice(old(mem), m2, mem, dirs, NULL, 0, 0, 0, 0);
        }
        ghost var n := i + 1;
        forall p ensures Remains(w1.mem, d, n, o1, other, p) {
          assert Remains(w1.mem, d, i, o1, o2, p);
          TabStep(w1, d, i, p);
        }
      }
      ghost var m3, o3 := mem, other;
      assert Remains(w1.mem, d, NENTRIES, o1, other, d);
      KFree(d);
      KeptTwice(old(mem), m3, mem, dirs, NULL, 0, 0, 0, 0);
      forall p ensures p in other <==> p in o1 {
        assert Remains(w1.mem, d, NENTRIES, o1, o3, p);
      }
      assert other == old(other);
      FreedAre(pages, old(free), old(uses), free, uses, other, d);
    }

    /** setupkvm's first part: an empty directory. */
    method NewDir() returns (d: int)
      requires Valid()
      modifies this`freelist, this`mem, this`free, this`uses, this`other, this`dirs
      ensures Valid() && other == old(other) && Kept(old(mem), mem, old(dirs), NULL, 0, 0)
      ensures d == NULL ==> dirs == old(dirs) && uses == old(uses) && free == old(free)
      ensures d != NULL ==> d !in old(dirs) && dirs == old(dirs) + {d} && Grown(old(uses), uses, d) && d in old(free)
      ensures d != NULL ==> forall v: nat :: KernelAt(mem, dataPage, d, 0, v)
      ensures d == NULL ==> old(free) == []
      ensures d != NULL ==> forall x: nat :: !HasTab(mem, d, x)
    {
      d := KAlloc();
      if d == NULL {
        return;
      }
      ghost var o1 := other;
      Fill(d, Table(NoEntries()));
      assert RootOk(W(), d);
      AddRoot(W(), d);
      GivenOk(pages, free, uses, other, d, Root(d));
      uses := uses[d := Root(d)];
      dirs := dirs + {d};
      other := other - {d};
    }

    /** The way out of setupkvm and copyuvm: the directory made since w0 goes, and the
        free pages are those from then. */
    method Abandon(d: int, ghost w0: World, ghost free0: seq<int>)
      requires Valid() && Sound(w0) && d !in w0.dirs && dirs == w0.dirs + {d} && Grown(w0.uses, uses, d)
      requires Divided(pages, free0, w0.uses, other) && Kept(w0.mem, mem, w0.dirs, NULL, 0, 0)
      modifies this`freelist, this`mem, this`free, this`uses, this`other, this`dirs
      ensures Valid() && other == old(other) && dirs == w0.dirs && uses == w0.uses
      ensures Kept(w0.mem, mem, w0.dirs, NULL, 0, 0) && forall p :: p in free <==> p in free0
    {
      assert forall p :: p in w0.uses ==> UseOk(w0, p);
      NewDropped(w0.uses, uses, d);
      ghost var m2 := mem;
      FreeVm(d);
      KeptTwice(w0.mem, m2, mem, w0.dirs, NULL, 0, 0, 0, 0);
      SameFree(pages, free0, free, uses, other);
    }

    /** setupkvm: a directory with the kernel's mappings and no user pages, or
        nothing at all, which happens exactly when there are not enough pages for
        it. */
    method SetupKvm() returns (d: int)
      requires Valid()
      modifies this`freelist, this`mem, this`free, this`uses, this`other, this`dirs
      ensures Valid() && other == old(other) && Kept(old(mem), mem, old(dirs), NULL, 0, 0)
      ensures d == NULL ==> dirs == old(dirs) && uses == old(uses) && forall p :: p in free <==> p in old(free)
      ensures d != NULL ==> d !in old(dirs) && dirs == old(dirs) + {d} && Grown(old(uses), uses, d)
      ensures d != NULL ==> forall v: nat :: KernelAt(mem, dataPage, d, NKMAP, v)
      ensures d == NULL <==> |old(free)| < KPAGES
      ensures d != NULL ==> TabsAre(mem, d, 0)
    {
      d := NewDir();
      if d == NULL {
        return;
      }
      for i := 0 to NKMAP
        invariant Valid() && other == old(other) && Kept(old(mem), mem, old(dirs), NULL, 0, 0)
        invariant d !in old(dirs) && dirs == old(dirs) + {d} && Grown(old(uses), uses, d)
        invariant forall v: nat :: KernelAt(mem, dataPage, d, i, v)
        invariant KernelTabs(mem, d)
      {
        ghost var m1 := mem;
        var k := KMap(dataPage, i);
        KernelFree(mem, dataPage, d, i);
        var r;
        ghost var n;
        r, n := MapPages(d, k.v, k.n, k.pa, k.perm);
        assert r != Remap && other == old(other);
        KeptOld(old(mem), m1, mem, old(dirs), dirs, d, k.v, k.v + n);
        RowTabs(m1, mem, dataPage, d, i, n);
        if r != Done {
          SpaceTaken(old(freelist), old(free), old(W()), freelist, W(), free, pages, other, d);
          RowFails(m1, mem, dataPage, dirs, d, i, n);
          Abandon(d, old(W()), old(free));
          return NULL;
        }
        KernelMore(m1, mem, dataPage, dirs, d, i, i + 1);
      }
      SpaceTaken(old(freelist), old(free), old(W()), freelist, W(), free, pages, other, d);
      KernelDone(mem, dataPage, d);
    }

    /** One turn of allocuvm's loop: a page of zeros at page v.  When no table can
        be had for it the page is left to the caller. */
    method AllocPage(d: int, v: nat) returns (ok: bool, page: int)
      requires Valid() && d in dirs && v < USERPAGES && IsFree(mem, d, v)
      modifies this`freelist, this`mem, this`free, this`uses, this`other
      ensures Valid() && Grown(old(uses), uses, d)
      ensures other == (if ok || page == NULL then old(other) else old(other) + {page}) && page !in old(other)
      ensures ok ==> page in old(free) && See(mem, d, v) == Mapped(page, PTE_WU, Zeros())
      ensures ok ==> Kept(old(mem), mem, dirs, d, v, v + 1)
      ensures !ok ==> Kept(old(mem), mem, dirs, NULL, 0, 0)
      ensures if ok then |free| + 2 >= |old(free)| else |old(free)| <= 1
    {
      assert PageOk(pages, free, uses, other, NULL);
      page := KAlloc();
      if page == NULL {
        return false, page;
      }
      ghost var m0 := mem;
      Fill(page, Data(Zeros()));
      ghost var m1 := mem;
      assert SameAt(m0, mem, d, v);
      var r;
      ghost var k;
      r, k := MapPages(d, v, 1, page, PTE_WU);
      assert r != Remap;
      ok := r == Done;
      if ok {
        assert ShiftedAt(m1, mem, d, v, page, PTE_WU, v);
        KeptInto(m0, m1, mem, dirs, d, v, v + 1);
      } else {
        KeptTwice(m0, m1, mem, dirs, d, v, v, v, v);
      }
    }

    /** allocuvm: the pages from oldsz to newsz become fresh pages of zeros, or
        everything is as it was, which happens only for want of memory. */
    method AllocUvm(d: int, oldsz: nat, newsz: nat) returns (r: nat, ghost ok: bool)
      requires Valid() && d in dirs && (newsz < KERNBASE ==> Free(mem, d, Up(oldsz), Up(newsz)))
      modifies this`freelist, this`mem, this`free, this`uses, this`other
      ensures Valid() && other == old(other)
      ensures r == if newsz >= KERNBASE then 0 else if newsz < oldsz then oldsz else if ok then newsz else 0
      ensures ok ==> Kept(old(mem), mem, dirs, d, Up(oldsz), Up(newsz))
      ensures ok ==> FreshZeros(mem, old(free), d, Up(oldsz), Up(newsz))
      ensures !ok ==> Kept(old(mem), mem, dirs, NULL, 0, 0)
      ensures !ok && newsz < KERNBASE ==> |old(free)| < 2 * (Up(newsz) - Up(oldsz))
    {
      if newsz >= KERNBASE {
        return 0, false;
      }
      if newsz < oldsz {
        UpMono(newsz, oldsz);
        return oldsz, true;
      }
      ghost var lo, hi := Up(oldsz), Up(newsz);
      UpMono(newsz, KERNBASE);
      UpMono(oldsz, newsz);
      var v: nat := Up(oldsz);
      while PGSIZE * v < newsz
        invariant lo <= v <= hi && Valid() && other == old(other) && Grown(old(uses), uses, d)
        invariant Kept(old(mem), mem, dirs, d, lo, v) && FreshZeros(mem, old(free), d, lo, v)
        invariant |free| + 2 * (v - lo) >= |old(free)|
        decreases hi - v
      {
        ghost var m1, f1, u1 := mem, free, uses;
        assert v < hi && IsFree(old(mem), d, v) && SameAt(old(mem), mem, d, v);
        var done, page := AllocPage(d, v);
        if !done {
          KeptInto2(old(mem), m1, mem, dirs, d, lo, v, hi);
          RollBack(d, oldsz, newsz, page, old(mem));
          return 0, false;
        }
        FreshMore(pages, m1, mem, dirs, d, lo, v, page, old(free), f1, old(uses), u1, other);
        KeptWider(old(mem), m1, dirs, d, lo, v, v + 1);
        KeptTwice(old(mem), m1, mem, dirs, d, lo, v + 1, v, v + 1);
        v := v + 1;
      }
      return newsz, true;
    }

    /** allocuvm's way out: what it has mapped is unmapped, and the page it could
        not map is freed. */
    method RollBack(d: int, oldsz: nat, newsz: nat, page: int, ghost m0: map<int, Page>)
      requires Valid() && d in dirs && oldsz <= newsz < KERNBASE && (page != NULL ==> page in other)
      requires Kept(m0, mem, dirs, d, Up(oldsz), Up(newsz)) && Free(m0, d, Up(oldsz), Up(newsz))
      modifies this`freelist, this`mem, this`free, this`uses, this`other
      ensures Valid() && other == old(other) - {page} && Kept(m0, mem, dirs, NULL, 0, 0)
    {
      assert PageOk(pages, free, uses, other, NULL);
      ghost var m1 := mem;
      var r := DeallocUvm(d, newsz, oldsz);
      Restored(m0, m1, mem, dirs, d, Up(oldsz), Up(newsz));
      if page != NULL {
        ghost var m2 := mem;
        KFree(page);
        KeptTwice(m0, m2, mem, dirs, NULL, 0, 0, 0, 0);
      }
    }

    /** One turn of copyuvm's loop: page v of d is copied into nd. */
    method CopyPage(d: int, nd: int, v: nat) returns (ok: bool)
      requires Valid() && d in dirs && nd in dirs && v < USERPAGES && Lookup(mem, d, v).Pte? && IsFree(mem, nd, v)
      modifies this`freelist, this`mem, this`free, this`uses, this`other
      ensures Valid() && Grown(old(uses), uses, nd) && other == old(other) && Kept(old(mem), mem, dirs, nd, v, v + 1)
      ensures ok ==> CopyAt(old(mem), mem, old(free), d, nd, v)
      ensures TabsWithin(old(mem), mem, nd, {Pdx(v)})
      ensures !ok ==> old(free) == [] || (|old(free)| == 1 && !HasTab(mem, nd, Pdx(v)))
    {
      assert LeafOk(W(), d, v);
      TablePage(W(), pages, free, other, nd, Pdx(v));
      var e := Lookup(mem, d, v);
      var page := KAlloc();
      if page == NULL {
        return false;
      }
      ghost var m0 := mem;
      Fill(page, mem[e.page]);
      ghost var m1 := mem;
      assert SameAt(m0, mem, nd, v);
      var r;
      ghost var k;
      r, k := MapPages(nd, v, 1, page, e.perm);
      assert r != Remap;
      ok := r == Done;
      ghost var m2 := mem;
      TablePage(W(), pages, free, other, nd, Pdx(v));
      KeptWider(m1, m2, dirs, nd, v, v + k, v + 1);
      KeptInto(m0, m1, m2, dirs, nd, v, v + 1);
      if ok {
        assert ShiftedAt(m1, mem, nd, v, page, e.perm, v);
      } else {
        KFree(page);
        KeptInto2(m0, m2, mem, dirs, nd, v, v + 1, v + 1);
      }
      TabsCopied(m0, m1, m2, mem, nd, v, k);
    }

    /** copyuvm: a new directory with the same contents and permissions on fresh
        pages, or nothing at all, which happens exactly when there are not enough
        pages for it. */
    method CopyUvm(d: int, sz: nat) returns (nd: int)
      requires Valid() && d in dirs && sz <= KERNBASE && forall u: nat :: u < Up(sz) ==> !IsFree(mem, d, u)
      modifies this`freelist, this`mem, this`free, this`uses, this`other, this`dirs
      ensures Valid() && other == old(other) && Kept(old(mem), mem, old(dirs), NULL, 0, 0)
      ensures nd == NULL ==> dirs == old(dirs) && uses == old(uses) && forall p :: p in free <==> p in old(free)
      ensures nd != NULL ==> nd !in old(dirs) && dirs == old(dirs) + {nd} && Grown(old(uses), uses, nd)
      ensures nd != NULL ==> Copied(old(mem), mem, old(free), d, nd, Up(sz))
      ensures nd != NULL ==> forall u: nat :: Up(sz) <= u ==> KernelAt(mem, dataPage, nd, NKMAP, u)
      ensures nd == NULL <==> |old(free)| < CopyNeeds(Up(sz))
    {
      UpMono(sz, KERNBASE);
      nd := SetupKvm();
      if nd == NULL {
        return;
      }
      var v: nat := 0;
      while PGSIZE * v < sz
        invariant v <= Up(sz) && Valid() && other == old(other) && Kept(old(mem), mem, old(dirs), NULL, 0, 0)
        invariant nd != NULL && nd !in old(dirs) && dirs == old(dirs) + {nd} && Grown(old(uses), uses, nd)
        invariant Copied(old(mem), mem, old(free), d, nd, v)
        invariant forall u: nat :: v <= u ==> KernelAt(mem, dataPage, nd, NKMAP, u)
        invariant TabsUpTo(mem, nd, v)
        decreases Up(sz) - v
      {
        ghost var m1, f1, u1 := mem, free, uses;
        CopySpace(old(freelist), old(free), old(W()), freelist, W(), free, pages, other, dataPage, d, nd, v);
        assert v < Up(sz) && !IsFree(old(mem), d, v) && SameAt(old(mem), mem, d, v);
        KernelUser(mem, dataPage, nd, v);
        var ok := CopyPage(d, nd, v);
        KeptOld(old(mem), m1, mem, old(dirs), dirs, nd, v, v + 1);
        if !ok {
          CopyFails(old(mem), m1, mem, old(free), |f1|, dirs, d, nd, v, Up(sz));
          Abandon(nd, old(W()), old(free));
          return NULL;
        }
        CopiedMore(pages, old(mem), m1, mem, dirs, d, nd, v, old(free), f1, old(uses), u1, other);
        KernelRest(m1, mem, dataPage, dirs, nd, v);
        TabsOneMore(m1, mem, nd, v);
        v := v + 1;
      }
      CopySpace(old(freelist), old(free), old(W()), freelist, W(), free, pages, other, dataPage, d, nd, v);
    }
  }

  /** Page u of nd is a copy, on a page from free, of page u of d. */
  predicate CopyAt(m0: map<int, Page>, m1: map<int, Page>, free: seq<int>, d: int, nd: int, u: nat) {
    var s, c := See(m0, d, u), See(m1, nd, u);
    s.Mapped? && c.Mapped? && c.page in free && c.perm == s.perm && c.bytes == s.bytes
  }

  ghost predicate Copied(m0: map<int, Page>, m1: map<int, Page>, free: seq<int>, d: int, nd: int, hi: nat) {
    forall u: nat :: u < hi ==> CopyAt(m0, m1, free, d, nd, u)
  }

  lemma CopiedMore(pages: set<int>, m0: map<int, Page>, m1: map<int, Page>, m2: map<int, Page>, dirs: set<int>, d: int,
                   nd: int, v: nat, f0: seq<int>, f1: seq<int>, u0: map<int, Use>, u1: map<int, Use>, other: set<int>)
    requires Copied(m0, m1, f0, d, nd, v) && Kept(m1, m2, dirs, nd, v, v + 1) && nd in dirs
    requires CopyAt(m1, m2, f1, d, nd, v) && SameAt(m0, m1, d, v)
    requires Divided(pages, f0, u0, other) && Divided(pages, f1, u1, other) && Grown(u0, u1, nd)
    ensures Copied(m0, m2, f0, d, nd, v + 1)
  {
    WasFree(pages, f0, f1, u0, u1, other, nd, See(m2, nd, v).page);
    forall u: nat | u < v + 1 ensures CopyAt(m0, m2, f0, d, nd, u) {
      if u < v {
        assert CopyAt(m0, m1, f0, d, nd, u) && SameAt(m1, m2, nd, u);
      }
    }
  }

  // ---- how many pages copyuvm needs ---------------------------------------

  /** For v user pages: a page and the share of a table for each, and the pages of
      setupkvm. */
  function CopyNeeds(v: nat): nat {
    KPAGES + v + UserTables(v)
  }

  /** Directory nd has no tables but the kernel's and those for the first v pages. */
  ghost predicate TabsUpTo(mem: map<int, Page>, nd: int, v: nat) {
    forall x: nat :: HasTab(mem, nd, x) ==> x < UserTables(v) || KernelTable(x)
  }

  lemma TabsOneMore(m0: map<int, Page>, m1: map<int, Page>, nd: int, v: nat)
    requires TabsUpTo(m0, nd, v) && TabsWithin(m0, m1, nd, {Pdx(v)})
    ensures TabsUpTo(m1, nd, v + 1)
  {
    assert UserTables(v) <= UserTables(v + 1);
  }

  /** Of copyuvm's writes only those of mappages add tables. */
  lemma TabsCopied(m0: map<int, Page>, m1: map<int, Page>, m2: map<int, Page>, m3: map<int, Page>, nd: int, v: nat,
                   k: nat)
    requires nd in m0 && nd in m1 && m1[nd] == m0[nd] && nd in m2 && nd in m3 && m3[nd] == m2[nd]
    requires TabsWithin(m1, m2, nd, Window(v, k)) && k <= 1
    ensures TabsWithin(m0, m3, nd, {Pdx(v)})
    ensures forall x: nat :: HasTab(m3, nd, x) <==> HasTab(m2, nd, x)
  {
    assert forall x: nat :: HasTab(m1, nd, x) <==> HasTab(m0, nd, x);
    assert forall x: nat :: HasTab(m3, nd, x) <==> HasTab(m2, nd, x);
    assert Window(v, k) <= {Pdx(v)};
  }

  /** The tables and user pages of nd after v turns. */
  lemma CopyTabs(m0: map<int, Page>, mem: map<int, Page>, f0: seq<int>, dataPage: nat, d: int, nd: int, v: nat)
    requires 0x100 < dataPage < 0xE000 && v <= USERPAGES && Copied(m0, mem, f0, d, nd, v) && TabsUpTo(mem, nd, v)
    requires forall u: nat :: v <= u ==> KernelAt(mem, dataPage, nd, NKMAP, u)
    ensures |TabSet(mem, nd)| == KPAGES - 1 + UserTables(v) && |LeafSet(mem, nd)| == v
  {
    forall x: nat ensures HasTab(mem, nd, x) <==> x < UserTables(v) || KernelTable(x) {
      var u := NENTRIES * x;
      assert Pdx(u) == x;
      if KernelTable(x) {
        KernelHas(dataPage, u);
        assert KernelAt(mem, dataPage, nd, NKMAP, u);
      } else if x < UserTables(v) {
        assert u < v && CopyAt(m0, mem, f0, d, nd, u);
      }
    }
    TabsCount(mem, nd, UserTables(v));
    forall u: nat ensures u in LeafSet(mem, nd) <==> u in Between(0, v) {
      if u < v {
        assert CopyAt(m0, mem, f0, d, nd, u);
      } else if u < USERPAGES {
        assert KernelAt(mem, dataPage, nd, NKMAP, u);
        UserUnmapped(dataPage, NKMAP, u);
      }
    }
    assert LeafSet(mem, nd) == Between(0, v);
  }

  lemma CopySpace(freelist0: int, free0: seq<int>, w0: World, freelist: int, w: World, free: seq<int>, pages: set<int>,
                  other: set<int>, dataPage: nat, d: int, nd: int, v: nat)
    requires Listed(freelist0, w0.mem, free0) && Divided(pages, free0, w0.uses, other) && Sound(w0) && nd !in w0.dirs
    requires Listed(freelist, w.mem, free) && Divided(pages, free, w.uses, other) && Sound(w) && nd in w.dirs
    requires Grown(w0.uses, w.uses, nd) && 0x100 < dataPage < 0xE000 && v <= USERPAGES
    requires Copied(w0.mem, w.mem, free0, d, nd, v) && TabsUpTo(w.mem, nd, v)
    requires forall u: nat :: v <= u ==> KernelAt(w.mem, dataPage, nd, NKMAP, u)
    ensures |free0| == |free| + CopyNeeds(v)
  {
    SpaceTaken(freelist0, free0, w0, freelist, w, free, pages, other, nd);
    CopyTabs(w0.mem, w.mem, free0, dataPage, d, nd, v);
  }

  /** A turn that fails found no page, or one page and no table to put it in. */
  lemma CopyFails(m0: map<int, Page>, m1: map<int, Page>, m2: map<int, Page>, f0: seq<int>, n1: nat, dirs: set<int>,
                  d: int, nd: int, v: nat, hi: nat)
    requires Copied(m0, m1, f0, d, nd, v) && Kept(m1, m2, dirs, nd, v, v + 1) && nd in dirs && v < hi
    requires n1 == 0 || (n1 == 1 && !HasTab(m2, nd, Pdx(v)))
    ensures n1 + CopyNeeds(v) < CopyNeeds(hi)
  {
    if v > 0 {
      assert CopyAt(m0, m1, f0, d, nd, v - 1) && SameAt(m1, m2, nd, v - 1);
      assert HasTab(m2, nd, Pdx(v - 1));
    }
    assert UserTables(v + 1) <= UserTables(hi);
  }

  lemma KernelUser(mem: map<int, Page>, dataPage: nat, d: int, v: nat)
    requires v < USERPAGES && 0x100 < dataPage < 0xE000
    requires forall u: nat :: v <= u ==> KernelAt(mem, dataPage, d, NKMAP, u)
    ensures IsFree(mem, d, v)
  {
    assert KernelAt(mem, dataPage, d, NKMAP, v);
    UserUnmapped(dataPage, NKMAP, v);
  }

  lemma {:induction false} UserUnmapped(dataPage: nat, i: nat, v: nat)
    requires v < USERPAGES && i <= NKMAP && 0x100 < dataPage < 0xE000
    ensures Kernel(dataPage, i, v) == Unmapped
  {
    if i > 0 {
      UserUnmapped(dataPage, i - 1, v);
    }
  }

  lemma KernelRest(m0: map<int, Page>, m1: map<int, Page>, dataPage: nat, dirs: set<int>, d: int, v: nat)
    requires 0x100 < dataPage < 0xE000 && d in dirs && forall u: nat :: v <= u ==> KernelAt(m0, dataPage, d, NKMAP, u)
    requires Kept(m0, m1, dirs, d, v, v + 1)
    ensures forall u: nat :: v + 1 <= u ==> KernelAt(m1, dataPage, d, NKMAP, u)
  {
    forall u: nat | v + 1 <= u ensures KernelAt(m1, dataPage, d, NKMAP, u) {
      assert SameAt(m0, m1, d, u) && KernelAt(m0, dataPage, d, NKMAP, u);
    }
  }

  predicate ZeroAt(mem: map<int, Page>, free: seq<int>, d: int, u: nat) {
    var s := See(mem, d, u);
    s.Mapped? && s.page in free && s.perm == PTE_WU && s.bytes == Zeros()
  }

  /** Directory d has writable pages of zeros from lo to hi, all from free. */
  ghost predicate FreshZeros(mem: map<int, Page>, free: seq<int>, d: int, lo: nat, hi: nat) {
    forall u: nat :: lo <= u < hi ==> ZeroAt(mem, free, d, u)
  }

  lemma FreshMore(pages: set<int>, m1: map<int, Page>, m2: map<int, Page>, dirs: set<int>, d: int, lo: nat, v: nat,
                  page: int, f0: seq<int>, f1: seq<int>, u0: map<int, Use>, u1: map<int, Use>, other: set<int>)
    requires FreshZeros(m1, f0, d, lo, v) && Kept(m1, m2, dirs, d, v, v + 1) && d in dirs
    requires See(m2, d, v) == Mapped(page, PTE_WU, Zeros()) && page in f1
    requires Divided(pages, f0, u0, other) && Divided(pages, f1, u1, other) && Grown(u0, u1, d)
    ensures FreshZeros(m2, f0, d, lo, v + 1)
  {
    WasFree(pages, f0, f1, u0, u1, other, d, page);
    forall u: nat | lo <= u < v + 1 ensures ZeroAt(m2, f0, d, u) {
      if u < v {
        assert ZeroAt(m1, f0, d, u) && SameAt(m1, m2, d, u);
      }
    }
  }

  /** A page that is free while directories only grow was free before. */
  lemma WasFree(pages: set<int>, f0: seq<int>, f1: seq<int>, u0: map<int, Use>, u1: map<int, Use>, other: set<int>,
                d: int, p: int)
    requires Divided(pages, f0, u0, other) && Divided(pages, f1, u1, other) && Grown(u0, u1, d) && p in f1
    ensures p in f0
  {
    assert PageOk(pages, f0, u0, other, p) && PageOk(pages, f1, u1, other, p);
  }

  lemma KeptInto2(m0: map<int, Page>, m1: map<int, Page>, m2: map<int, Page>, dirs: set<int>, d: int, lo: nat, v: nat,
                  hi: nat)
    requires Kept(m0, m1, dirs, d, lo, v) && Kept(m1, m2, dirs, NULL, 0, 0) && v <= hi
    ensures Kept(m0, m2, dirs, d, lo, hi)
  {
    forall e, u: nat | e in dirs && !(e == d && lo <= u < hi) ensures SameAt(m0, m2, e, u) {
      assert SameAt(m0, m1, e, u) && SameAt(m1, m2, e, u);
    }
  }

  /** Unmapping all that was added restores the directory. */
  lemma Restored(m0: map<int, Page>, m1: map<int, Page>, m2: map<int, Page>, dirs: set<int>, d: int, lo: nat, hi: nat)
    requires Kept(m0, m1, dirs, d, lo, hi) && Kept(m1, m2, dirs, d, lo, hi)
    requires Free(m0, d, lo, hi) && Free(m2, d, lo, hi)
    ensures Kept(m0, m2, dirs, NULL, 0, 0)
  {
    forall e, u: nat | e in dirs ensures SameAt(m0, m2, e, u) {
      if e == d && lo <= u < hi {
        assert IsFree(m0, d, u) && IsFree(m2, d, u);
      } else {
        assert SameAt(m0, m1, e, u) && SameAt(m1, m2, e, u);
      }
    }
  }

  // ---- the kernel's mappings ----------------------------------------------

  const NKMAP: nat := 4

  datatype KRange = KRange(v: nat, n: nat, pa: nat, perm: int)

  /** The rows of kmap in pages: I/O space, kernel text, kernel data and memory,
      devices. */
  function KMap(dataPage: nat, i: nat): (k: KRange)
    requires i < NKMAP && 0x100 < dataPage < 0xE000
    ensures USERPAGES <= k.v && 0 < k.n && k.v + k.n <= ALLPAGES
  {
    if i == 0 then KRange(0x8_0000, 0x100, 0, PTE_W)
    else if i == 1 then KRange(0x8_0100, dataPage - 0x100, 0x100, 0)
    else if i == 2 then KRange(0x8_0000 + dataPage, 0xE000 - dataPage, dataPage, PTE_W)
    else KRange(0xF_E000, 0x2000, 0xF_E000, PTE_W)
  }

  /** What the first i rows of kmap put at page v. */
  function Kernel(dataPage: nat, i: nat, v: nat): Seen
    requires i <= NKMAP && 0x100 < dataPage < 0xE000
  {
    if i == 0 then Unmapped
    else
      var k := KMap(dataPage, i - 1);
      if k.v <= v < k.v + k.n then Mapped(k.pa + v - k.v, k.perm, []) else Kernel(dataPage, i - 1, v)
  }

  ghost predicate KernelAt(mem: map<int, Page>, dataPage: nat, d: int, i: nat, v: nat)
    requires i <= NKMAP && 0x100 < dataPage < 0xE000
  {
    See(mem, d, v) == Kernel(dataPage, i, v)
  }

  /** The rows do not overlap, so mappages finds nothing to remap. */
  lemma KernelFree(mem: map<int, Page>, dataPage: nat, d: int, i: nat)
    requires i < NKMAP && 0x100 < dataPage < 0xE000 && forall v: nat :: KernelAt(mem, dataPage, d, i, v)
    ensures var k := KMap(dataPage, i); Free(mem, d, k.v, k.v + k.n)
  {
    var k := KMap(dataPage, i);
    forall v: nat | k.v <= v < k.v + k.n ensures IsFree(mem, d, v) {
      assert KernelAt(mem, dataPage, d, i, v);
      KernelApart(dataPage, i, i, v);
    }
  }

  /** A directory has no tables but the kernel's. */
  ghost predicate KernelTabs(mem: map<int, Page>, d: int) {
    forall x: nat :: HasTab(mem, d, x) ==> KernelTable(x)
  }

  lemma RowTable(dataPage: nat, i: nat, v: nat)
    requires i < NKMAP && 0x100 < dataPage < 0xE000
    requires var k := KMap(dataPage, i); k.v <= v < k.v + k.n
    ensures KernelTable(Pdx(v))
  {
  }

  /** The tables of row i are the kernel's. */
  lemma RowTabs(m0: map<int, Page>, m1: map<int, Page>, dataPage: nat, d: int, i: nat, n: nat)
    requires i < NKMAP && 0x100 < dataPage < 0xE000 && n <= KMap(dataPage, i).n
    requires KernelTabs(m0, d) && TabsWithin(m0, m1, d, Window(KMap(dataPage, i).v, n))
    ensures KernelTabs(m1, d)
  {
    var k := KMap(dataPage, i);
    if n > 0 {
      WindowIs(k.v, n);
      RowTable(dataPage, i, k.v);
      RowTable(dataPage, i, k.v + n - 1);
    }
    forall x: nat | HasTab(m1, d, x) ensures KernelTable(x) {
    }
  }

  /** Where mappages has stopped for want of a table, the kernel's tables are not all
      there, and there are no user pages. */
  lemma RowFails(m0: map<int, Page>, m1: map<int, Page>, dataPage: nat, dirs: set<int>, d: int, i: nat, n: nat)
    requires i < NKMAP && 0x100 < dataPage < 0xE000 && n < KMap(dataPage, i).n && d in dirs && KernelTabs(m1, d)
    requires (forall v: nat :: KernelAt(m0, dataPage, d, i, v)) && !HasTab(m1, d, Pdx(KMap(dataPage, i).v + n))
    requires Kept(m0, m1, dirs, d, KMap(dataPage, i).v, KMap(dataPage, i).v + n)
    ensures |TabSet(m1, d)| < KPAGES - 1 && LeafSet(m1, d) == {}
  {
    var k := KMap(dataPage, i);
    RowTable(dataPage, i, k.v + n);
    TabsLack(m1, d, Pdx(k.v + n));
    forall v: nat | v < USERPAGES ensures !HasLeaf(m1, d, v) {
      assert KernelAt(m0, dataPage, d, i, v) && SameAt(m0, m1, d, v);
      UserUnmapped(dataPage, i, v);
    }
  }

  lemma KernelDone(mem: map<int, Page>, dataPage: nat, d: int)
    requires 0x100 < dataPage < 0xE000 && KernelTabs(mem, d) && forall v: nat :: KernelAt(mem, dataPage, d, NKMAP, v)
    ensures TabsAre(mem, d, 0) && |TabSet(mem, d)| == KPAGES - 1 && LeafSet(mem, d) == {}
  {
    forall x: nat ensures HasTab(mem, d, x) <==> x < 0 || KernelTable(x) {
      if KernelTable(x) {
        KernelHas(dataPage, NENTRIES * x);
        assert KernelAt(mem, dataPage, d, NKMAP, NENTRIES * x) && Pdx(NENTRIES * x) == x;
      }
    }
    TabsCount(mem, d, 0);
    forall v: nat | v < USERPAGES ensures !HasLeaf(mem, d, v) {
      assert KernelAt(mem, dataPage, d, NKMAP, v);
      UserUnmapped(dataPage, NKMAP, v);
    }
  }

  /** The rows of kmap cover all pages of the kernel's tables. */
  lemma KernelHas(dataPage: nat, v: nat)
    requires 0x100 < dataPage < 0xE000 && KernelTable(Pdx(v))
    ensures Kernel(dataPage, NKMAP, v).Mapped?
  {
    assert 0x8_0000 <= v < 0x8_E000 || 0xF_E000 <= v < 0x10_0000;
    assert Kernel(dataPage, 3, v).Mapped? || v >= 0xF_E000 by {
      assert Kernel(dataPage, 1, v).Mapped? || v >= 0x8_0100;
      assert Kernel(dataPage, 2, v).Mapped? || v >= 0x8_0000 + dataPage;
    }
  }

  /** The pages that a directory made since then has taken. */
  lemma SpaceTaken(freelist0: int, free0: seq<int>, w0: World, freelist: int, w: World, free: seq<int>,
                   pages: set<int>, other: set<int>, d: int)
    requires Listed(freelist0, w0.mem, free0) && Divided(pages, free0, w0.uses, other) && Sound(w0) && d !in w0.dirs
    requires Listed(freelist, w.mem, free) && Divided(pages, free, w.uses, other) && Sound(w) && d in w.dirs
    requires Grown(w0.uses, w.uses, d)
    ensures |free0| == |free| + 1 + |TabSet(w.mem, d)| + |LeafSet(w.mem, d)|
  {
    assert forall p :: p in w0.uses ==> UseOk(w0, p);
    PagesConserved(freelist0, w0.mem, pages, free0, w0.uses, other);
    PagesConserved(freelist, w.mem, pages, free, w.uses, other);
    DirSize(w, d);
    UsesGrow(w0.uses, w.uses, d);
  }

  lemma UsesGrow(uses: map<int, Use>, uses': map<int, Use>, d: int)
    requires Grown(uses, uses', d) && forall p :: p in uses ==> uses[p].dir != d
    ensures |uses'| == |uses| + |OwnedBy(uses', d)|
  {
    var rest := uses' - OwnedBy(uses', d);
    NewDropped(uses, uses', d);
    assert rest.Keys == uses'.Keys - OwnedBy(uses', d);
    Without(uses'.Keys, OwnedBy(uses', d));
  }

  lemma Without(a: set<int>, b: set<int>)
    requires b <= a
    ensures |a - b| == |a| - |b|
  {
  }

  lemma {:induction false} KernelApart(dataPage: nat, i: nat, j: nat, v: nat)
    requires j <= i < NKMAP && 0x100 < dataPage < 0xE000
    requires var k := KMap(dataPage, i); k.v <= v < k.v + k.n
    ensures Kernel(dataPage, j, v) == Unmapped
  {
    if j > 0 {
      KernelApart(dataPage, i, j - 1, v);
    }
  }

  lemma KernelMore(m0: map<int, Page>, m1: map<int, Page>, dataPage: nat, dirs: set<int>, d: int, i: nat, j: nat)
    requires i < NKMAP && j == i + 1 && 0x100 < dataPage < 0xE000 && d in dirs
    requires forall v: nat :: KernelAt(m0, dataPage, d, i, v)
    requires var k := KMap(dataPage, i);
      Kept(m0, m1, dirs, d, k.v, k.v + k.n) && Shifted(m0, m1, d, k.v, k.v + k.n, k.pa, k.perm)
    ensures forall v: nat :: KernelAt(m1, dataPage, d, j, v)
  {
    var k := KMap(dataPage, i);
    forall v: nat ensures KernelAt(m1, dataPage, d, j, v) {
      if k.v <= v < k.v + k.n {
        assert ShiftedAt(m0, m1, d, k.v, k.pa, k.perm, v);
      } else {
        assert SameAt(m0, m1, d, v) && KernelAt(m0, dataPage, d, i, v);
      }
    }
  }

  lemma KeptInto(m0: map<int, Page>, m1: map<int, Page>, m2: map<int, Page>, dirs: set<int>, d: int, lo: nat, hi: nat)
    requires Kept(m0, m1, dirs, NULL, 0, 0) && Kept(m1, m2, dirs, d, lo, hi)
    ensures Kept(m0, m2, dirs, d, lo, hi)
  {
    forall e, u: nat | e in dirs && !(e == d && lo <= u < hi) ensures SameAt(m0, m2, e, u) {
      assert SameAt(m0, m1, e, u) && SameAt(m1, m2, e, u);
    }
  }

  lemma KeptOld(m0: map<int, Page>, m1: map<int, Page>, m2: map<int, Page>, dirs: set<int>, dirs': set<int>, d: int,
                lo: nat, hi: nat)
    requires Kept(m0, m1, dirs, NULL, 0, 0) && Kept(m1, m2, dirs', d, lo, hi) && dirs <= dirs' && d !in dirs
    ensures Kept(m0, m2, dirs, NULL, 0, 0)
  {
    forall e, u: nat | e in dirs ensures SameAt(m0, m2, e, u) {
      assert SameAt(m0, m1, e, u) && SameAt(m1, m2, e, u);
    }
  }

  /** Dropping a new directory leaves what there was before it. */
  lemma NewDropped(uses: map<int, Use>, uses': map<int, Use>, d: int)
    requires Grown(uses, uses', d) && forall p :: p in uses ==> uses[p].dir != d
    ensures uses' - OwnedBy(uses', d) == uses
  {
    var a := uses' - OwnedBy(uses', d);
    forall p ensures (p in a <==> p in uses) && (p in a ==> a[p] == uses[p]) {
      assert p in uses ==> p in uses' && uses'[p] == uses[p];
      assert p in uses' && p !in uses ==> uses'[p].dir == d;
    }
    assert a.Keys == uses.Keys;
    assert a == uses;
  }

  lemma SameFree(pages: set<int>, free: seq<int>, free': seq<int>, uses: map<int, Use>, other: set<int>)
    requires Divided(pages, free, uses, other) && Divided(pages, free', uses, other)
    ensures forall p :: p in free' <==> p in free
  {
    forall p ensures p in free' <==> p in free {
      assert PageOk(pages, free, uses, other, p) && PageOk(pages, free', uses, other, p);
    }
  }

  lemma KeptOthers(m0: map<int, Page>, m1: map<int, Page>, dirs: set<int>, d: int, lo: nat, hi: nat)
    requires Kept(m0, m1, dirs, d, lo, hi)
    ensures Kept(m0, m1, dirs - {d}, NULL, 0, 0)
  {
  }

  lemma ShrunkDrop(uses: map<int, Use>, uses': map<int, Use>, d: int)
    requires Shrunk(uses, uses', d)
    ensures uses' - OwnedBy(uses', d) == uses - OwnedBy(uses, d)
  {
    var a, b := uses' - OwnedBy(uses', d), uses - OwnedBy(uses, d);
    forall p ensures (p in a <==> p in b) && (p in a ==> a[p] == b[p]) {
      assert p in uses' ==> p in uses && uses'[p] == uses[p];
      assert p in uses && p !in uses' ==> uses[p].dir == d;
    }
    assert a.Keys == b.Keys;
    assert a == b;
  }

  /** What the directory's pages leave when all of them are freed. */
  lemma FreedAre(pages: set<int>, free: seq<int>, uses: map<int, Use>, free': seq<int>, uses': map<int, Use>,
                 other: set<int>, d: int)
    requires Divided(pages, free, uses, other) && Divided(pages, free', uses', other)
    requires uses' == uses - OwnedBy(uses, d)
    ensures forall p :: p in free' <==> p in free || p in OwnedBy(uses, d)
  {
    forall p ensures p in free' <==> p in free || p in OwnedBy(uses, d) {
      assert PageOk(pages, free, uses, other, p) && PageOk(pages, free', uses', other, p);
    }
  }

  /** p is a table of d for some range from i on. */
  ghost predicate TabFrom(mem: map<int, Page>, d: int, i: nat, p: int) {
    exists x: nat :: i <= x < NENTRIES && Entry(mem, d, x).Pte? && Entry(mem, d, x).page == p
  }

  /** While d is taken apart: its own page and its tables from i on are left. */
  ghost predicate Remains(mem: map<int, Page>, d: int, i: nat, o1: set<int>, other: set<int>, p: int) {
    p in other <==> p in o1 || p == d || TabFrom(mem, d, i, p)
  }

  lemma BareTables(w: World, d: int, p: int)
    requires Sound(w) && d in w.dirs && Free(w.mem, d, 0, USERPAGES)
    ensures p in OwnedBy(w.uses, d) <==> p == d || TabFrom(w.mem, d, 0, p)
  {
    forall v: nat | v < USERPAGES ensures Lookup(w.mem, d, v).None? {
      assert IsFree(w.mem, d, v);
    }
    BareDir(w, d, p);
    if x: nat :| Entry(w.mem, d, x).Pte? && Entry(w.mem, d, x).page == p {
      assert 0 <= x < NENTRIES;
    }
  }

  lemma TabStep(w: World, d: int, i: nat, p: int)
    requires Sound(w) && d in w.dirs && i < NENTRIES
    ensures TabFrom(w.mem, d, i, p) <==>
      TabFrom(w.mem, d, i + 1, p) || (Entry(w.mem, d, i).Pte? && Entry(w.mem, d, i).page == p)
    ensures Entry(w.mem, d, i).Pte? && Entry(w.mem, d, i).page == p ==> !TabFrom(w.mem, d, i + 1, p)
  {
    assert TabOk(w, d, i);
    if x: nat :| i + 1 <= x < NENTRIES && Entry(w.mem, d, x).Pte? && Entry(w.mem, d, x).page == p {
      assert TabOk(w, d, x);
    }
  }

  lemma RemainsStep(w: World, pages: set<int>, o1: set<int>, d: int, i: nat, other: set<int>)
    requires Sound(w) && d in w.dirs && i < NENTRIES && forall p :: Remains(w.mem, d, i, o1, other, p)
    requires forall p :: p in o1 ==> p !in w.uses
    ensures Entry(w.mem, d, i).Pte? ==>
      var q := Entry(w.mem, d, i).page; q in other && q != d && q !in o1 && !TabFrom(w.mem, d, i + 1, q)
  {
    assert RootOk(w, d) && TabOk(w, d, i);
    if Entry(w.mem, d, i).Pte? {
      var q := Entry(w.mem, d, i).page;
      assert Remains(w.mem, d, i, o1, other, q);
      TabStep(w, d, i, q);
    }
  }

  function Least(a: nat, b: nat): nat {
    if a < b then a else b
  }

  lemma UpMono(a: nat, b: nat)
    ensures a <= b ==> Up(a) <= Up(b)
    ensures Up(KERNBASE) == USERPAGES
  {
  }

  /** The free list after the pages of d from v to hi have been freed one by one. */
  ghost function PageByPage(free: seq<int>, mem: map<int, Page>, d: int, v: nat, hi: nat): seq<int>
    decreases hi - v
  {
    if v >= hi then free
    else
      var e := Lookup(mem, d, v);
      PageByPage(if e.Pte? then [e.page] + free else free, mem, d, v + 1, hi)
  }

  /** Pages have left directory d only, and none has come. */
  ghost predicate Shrunk(uses: map<int, Use>, uses': map<int, Use>, d: int) {
    && (forall p :: p in uses' ==> p in uses && uses'[p] == uses[p])
    && (forall p :: p in uses && p !in uses' ==> uses[p].dir == d && uses[p].Leaf?)
  }

  lemma LeafTaken(w: World, d: int, v: nat, pa: int)
    requires Sound(w) && d in w.dirs && v < USERPAGES && Lookup(w.mem, d, v).Pte? && Lookup(w.mem, d, v).page == pa
    ensures pa in w.uses && w.uses[pa] == Leaf(d, v) && LeafChange(w, d, v, None, w.uses - {pa})
  {
    assert LeafOk(w, d, v);
    forall p | p in w.uses && w.uses[p] == Leaf(d, v) ensures p == pa {
      assert UseOk(w, p);
    }
  }

  /** Of the pages of d from lo to hi those before v have been freed. */
  ghost predicate Cleared(m0: map<int, Page>, m1: map<int, Page>, dirs: set<int>, d: int, lo: nat, v: nat, hi: nat,
                          f0: seq<int>, f1: seq<int>) {
    && lo <= v && Kept(m0, m1, dirs, d, lo, Least(v, hi)) && Free(m1, d, lo, Least(v, hi))
    && PageByPage(f1, m0, d, v, hi) == PageByPage(f0, m0, d, lo, hi)
  }

  lemma ClearedOne(m0: map<int, Page>, m1: map<int, Page>, m2: map<int, Page>, dirs: set<int>, d: int, lo: nat, v: nat,
                   hi: nat, f0: seq<int>, f1: seq<int>, f2: seq<int>)
    requires Cleared(m0, m1, dirs, d, lo, v, hi, f0, f1) && Kept(m1, m2, dirs, d, v, v + 1) && d in dirs && v < hi
    requires See(m2, d, v) == Unmapped
    requires f2 == if Lookup(m1, d, v).Pte? then [Lookup(m1, d, v).page] + f1 else f1
    ensures Cleared(m0, m2, dirs, d, lo, v + 1, hi, f0, f2)
  {
    assert SameAt(m0, m1, d, v);
    KeptWider(m0, m1, dirs, d, lo, v, v + 1);
    KeptTwice(m0, m1, m2, dirs, d, lo, v + 1, v, v + 1);
    forall u: nat | lo <= u < v + 1 ensures IsFree(m2, d, u) {
      if u < v {
        assert IsFree(m1, d, u) && SameAt(m1, m2, d, u);
      }
    }
  }

  /** Where there is no table there is nothing to free. */
  lemma ClearedSkip(m0: map<int, Page>, m1: map<int, Page>, dirs: set<int>, d: int, lo: nat, v: nat, hi: nat,
                    f0: seq<int>, f1: seq<int>)
    requires Cleared(m0, m1, dirs, d, lo, v, hi, f0, f1) && d in dirs && v < hi && Entry(m1, d, Pdx(v)).None?
    ensures Cleared(m0, m1, dirs, d, lo, LastPage(v) + 1, hi, f0, f1)
  {
    var v' := LastPage(v) + 1;
    forall u: nat | v <= u < v' ensures IsFree(m1, d, u) && IsFree(m0, d, u) {
      assert Pdx(u) == Pdx(v);
      assert SameAt(m0, m1, d, u);
    }
    NothingFreed(f1, m0, d, v, v', hi);
  }

  /** The last page in the range of v's table: PGADDR(PDX(a) + 1, 0, 0) - PGSIZE. */
  function LastPage(v: nat): (u: nat)
    ensures v <= u && Pdx(u) == Pdx(v) && forall w: nat :: v <= w <= u ==> Pdx(w) == Pdx(v)
  {
    (Pdx(v) + 1) * NENTRIES - 1
  }

  function LastOfTable(a: nat, v: nat): (b: nat)
    requires a == PGSIZE * v
    ensures b == PGSIZE * LastPage(v)
  {
    assert a / 0x40_0000 == Pdx(v);
    (a / 0x40_0000 + 1) * 0x40_0000 - PGSIZE
  }

  lemma {:induction false} NothingFreed(free: seq<int>, mem: map<int, Page>, d: int, v: nat, v': nat, hi: nat)
    requires v <= v' && Free(mem, d, v, v')
    ensures PageByPage(free, mem, d, v, hi) == PageByPage(free, mem, d, v', hi)
    decreases v' - v
  {
    if v < v' && v < hi {
      assert IsFree(mem, d, v);
      NothingFreed(free, mem, d, v + 1, v', hi);
    }
  }

  predicate IsFree(mem: map<int, Page>, d: int, u: nat) {
    Lookup(mem, d, u).None?
  }

  /** Directory d maps nothing at pages lo to hi. */
  ghost predicate Free(mem: map<int, Page>, d: int, lo: nat, hi: nat) {
    forall u: nat :: lo <= u < hi ==> IsFree(mem, d, u)
  }

  predicate ShiftedAt(m0: map<int, Page>, m1: map<int, Page>, d: int, lo: nat, pa: int, perm: int, u: nat)
  {
    See(m1, d, u) == Mapped(pa + u - lo, perm, Contents(m0, pa + u - lo, u))
  }

  /** Directory d maps pages lo to hi to pa and the pages after it. */
  ghost predicate Shifted(m0: map<int, Page>, m1: map<int, Page>, d: int, lo: nat, hi: nat, pa: int, perm: int) {
    forall u: nat :: lo <= u < hi ==> ShiftedAt(m0, m1, d, lo, pa, perm, u)
  }

  lemma KeptWider(m0: map<int, Page>, m1: map<int, Page>, dirs: set<int>, d: int, lo: nat, hi: nat, hi': nat)
    requires Kept(m0, m1, dirs, d, lo, hi) && hi <= hi'
    ensures Kept(m0, m1, dirs, d, lo, hi')
  {
  }

  /** Pages v to v + k of directory d, which were free, map to pa and the pages
      after it, and no other page of a directory has changed. */
  ghost predicate MappedTo(m0: map<int, Page>, m1: map<int, Page>, dirs: set<int>, d: int, v: nat, k: nat,
                           pa: int, perm: int)
  {
    && Kept(m0, m1, dirs, d, v, v + k) && Shifted(m0, m1, d, v, v + k, pa, perm)
    && Free(m0, d, v, v + k)
  }

  lemma MappedStays(m0: map<int, Page>, m1: map<int, Page>, m2: map<int, Page>, dirs: set<int>, d: int, v: nat, k: nat,
                    pa: int, perm: int)
    requires MappedTo(m0, m1, dirs, d, v, k, pa, perm) && Kept(m1, m2, dirs, NULL, 0, 0) && d in dirs
    ensures MappedTo(m0, m2, dirs, d, v, k, pa, perm)
  {
    KeptTwice(m0, m1, m2, dirs, d, v, v + k, 0, 0);
    ShiftedKept(m0, m1, m2, dirs, d, v, v + k, pa, perm);
  }

  lemma MappedMore(m0: map<int, Page>, m1: map<int, Page>, m2: map<int, Page>, dirs: set<int>, d: int, v: nat, k: nat,
                   pa: int, perm: int)
    requires MappedTo(m0, m1, dirs, d, v, k, pa, perm) && Kept(m1, m2, dirs, d, v + k, v + k + 1) && d in dirs
    requires IsFree(m0, d, v + k) && See(m2, d, v + k) == Mapped(pa + k, perm, Contents(m0, pa + k, v + k))
    ensures MappedTo(m0, m2, dirs, d, v, k + 1, pa, perm)
  {
    KeptWider(m0, m1, dirs, d, v, v + k, v + k + 1);
    KeptTwice(m0, m1, m2, dirs, d, v, v + k + 1, v + k, v + k + 1);
    ShiftedMore(m0, m1, m2, dirs, d, v, k, pa, perm);
  }

  lemma ShiftedKept(m0: map<int, Page>, m1: map<int, Page>, m2: map<int, Page>, dirs: set<int>, d: int, lo: nat,
                    hi: nat, pa: int, perm: int)
    requires Shifted(m0, m1, d, lo, hi, pa, perm) && Kept(m1, m2, dirs, NULL, 0, 0) && d in dirs
    ensures Shifted(m0, m2, d, lo, hi, pa, perm)
  {
    forall u: nat | lo <= u < hi ensures ShiftedAt(m0, m2, d, lo, pa, perm, u) {
      assert ShiftedAt(m0, m1, d, lo, pa, perm, u) && SameAt(m1, m2, d, u);
    }
  }

  lemma ShiftedMore(m0: map<int, Page>, m1: map<int, Page>, m2: map<int, Page>, dirs: set<int>, d: int, lo: nat,
                    k: nat, pa: int, perm: int)
    requires Shifted(m0, m1, d, lo, lo + k, pa, perm) && Kept(m1, m2, dirs, d, lo + k, lo + k + 1) && d in dirs
    requires See(m2, d, lo + k) == Mapped(pa + k, perm, Contents(m0, pa + k, lo + k))
    ensures Shifted(m0, m2, d, lo, lo + k + 1, pa, perm)
  {
    forall u: nat | lo <= u < lo + k + 1 ensures ShiftedAt(m0, m2, d, lo, pa, perm, u) {
      if u < lo + k {
        assert ShiftedAt(m0, m1, d, lo, pa, perm, u) && SameAt(m1, m2, d, u);
      }
    }
  }

  /** A table in use belongs to its directory, so it is neither free nor in use
      otherwise. */
  lemma TablePage(w: World, pages: set<int>, free: seq<int>, other: set<int>, d: int, x: nat)
    requires Sound(w) && d in w.dirs && Divided(pages, free, w.uses, other)
    ensures IsTable(w.mem, d) && d in w.uses && d !in free && d !in other && d != NULL
    ensures Entry(w.mem, d, x).Pte? ==>
      var t := Entry(w.mem, d, x).page;
      t != NULL && t != d && IsTable(w.mem, t) && t in w.uses && t !in free && t !in other
  {
    assert RootOk(w, d) && TabOk(w, d, x) && PageOk(pages, free, w.uses, other, d);
    if Entry(w.mem, d, x).Pte? {
      assert PageOk(pages, free, w.uses, other, Entry(w.mem, d, x).page);
    }
  }

  /** The pages ps are in both memories, and the same. */
  ghost predicate Intact(m: map<int, Page>, m': map<int, Page>, ps: set<int>) {
    forall p :: p in ps ==> p in m && p in m' && m'[p] == m[p]
  }

  lemma IntactTwice(m: map<int, Page>, m1: map<int, Page>, m2: map<int, Page>, ps: set<int>, qs: set<int>)
    requires Intact(m, m1, ps) && Intact(m1, m2, qs) && qs <= ps
    ensures Intact(m, m2, qs)
  {
  }

  lemma OtherPages(pages: set<int>, free: seq<int>, uses: map<int, Use>, other: set<int>, mem: map<int, Page>)
    requires Divided(pages, free, uses, other) && forall p :: p in pages ==> p in mem
    ensures forall p :: p in other ==> p in mem && p !in uses && p !in free
  {
    forall p | p in other ensures p in mem && p !in uses && p !in free {
      assert PageOk(pages, free, uses, other, p);
    }
  }

  lemma GivenOk(pages: set<int>, free: seq<int>, uses: map<int, Use>, other: set<int>, p: int, u: Use)
    requires Divided(pages, free, uses, other) && p in other
    ensures Divided(pages, free, uses[p := u], other - {p}) && p !in uses && p !in free && p != NULL
  {
    assert PageOk(pages, free, uses, other, p);
    var uses', other' := uses[p := u], other - {p};
    forall q ensures PageOk(pages, free, uses', other', q) {
      assert PageOk(pages, free, uses, other, q);
    }
  }

  lemma TakenOk(pages: set<int>, free: seq<int>, uses: map<int, Use>, other: set<int>, gone: set<int>)
    requires Divided(pages, free, uses, other) && gone <= uses.Keys
    ensures Divided(pages, free, uses - gone, other + gone)
  {
    var uses', other' := uses - gone, other + gone;
    forall q ensures PageOk(pages, free, uses', other', q) {
      assert PageOk(pages, free, uses, other, q);
    }
  }

  lemma LeafGiven(w: World, pages: set<int>, free: seq<int>, other: set<int>, d: int, v: nat, pa: int, perm: int)
    requires Sound(w) && d in w.dirs && v < USERPAGES && Lookup(w.mem, d, v).None?
    requires Divided(pages, free, w.uses, other) && pa in other && pa in w.mem && w.mem[pa].Data?
    ensures LeafChange(w, d, v, Pte(pa, perm), w.uses[pa := Leaf(d, v)])
  {
    GivenOk(pages, free, w.uses, other, pa, Leaf(d, v));
    forall p | p in w.uses ensures w.uses[p] != Leaf(d, v) {
      assert UseOk(w, p);
    }
  }

  lemma KernelLeaf(w: World, d: int, v: nat, e: Pte)
    requires Sound(w) && v >= USERPAGES
    ensures LeafChange(w, d, v, e, w.uses)
  {
    forall p | p in w.uses ensures w.uses[p] != Leaf(d, v) {
      assert UseOk(w, p);
    }
  }

  lemma OneChange(m0: map<int, Page>, m1: map<int, Page>, dirs: set<int>, d: int, v: nat)
    requires forall e, u: nat :: e in dirs && !(e == d && u == v) ==> See(m1, e, u) == See(m0, e, u)
    ensures Kept(m0, m1, dirs, d, v, v + 1)
  {
  }

  lemma PoppedOk(pages: set<int>, mem: map<int, Page>, free: seq<int>, uses: map<int, Use>, other: set<int>)
    requires |free| > 0 && Listed(free[0], mem, free) && Divided(pages, free, uses, other)
    ensures Listed(First(free, 1), mem, free[1..]) && Divided(pages, free[1..], uses, other + {free[0]})
  {
    var rest := free[1..];
    forall i: nat ensures LinkOk(mem, rest, i) {
      assert LinkOk(mem, free, i + 1);
    }
    forall p ensures PageOk(pages, rest, uses, other + {free[0]}, p) {
      assert PageOk(pages, free, uses, other, p);
      if p in free && p != free[0] {
        var i :| 0 <= i < |free| && free[i] == p;
        assert rest[i - 1] == p;
      }
    }
  }

  lemma PushedOk(pages: set<int>, freelist: int, mem: map<int, Page>, free: seq<int>, uses: map<int, Use>,
                 other: set<int>, p: int)
    requires Listed(freelist, mem, free) && Divided(pages, free, uses, other) && p in other
    ensures Listed(p, mem[p := Run(freelist)], [p] + free) && Divided(pages, [p] + free, uses, other - {p})
  {
    assert PageOk(pages, free, uses, other, p);
    var all, mem' := [p] + free, mem[p := Run(freelist)];
    forall i: nat ensures LinkOk(mem', all, i) {
      if i > 0 {
        assert LinkOk(mem, free, i - 1);
      }
    }
    forall q ensures PageOk(pages, all, uses, other - {p}, q) {
      assert PageOk(pages, free, uses, other, q);
      assert q in all <==> q == p || q in free;
    }
  }
}
