/** Which tables a directory has, and how many pages it takes. */
module TableAccounts {
  import opened PageTables

  predicate HasTab(mem: map<int, Page>, d: int, x: nat) {
    x < NENTRIES && Entry(mem, d, x).Pte?
  }

  /** From m0 to m1 directory d has got tables for no ranges but xs. */
  ghost predicate TabsWithin(m0: map<int, Page>, m1: map<int, Page>, d: int, xs: set<nat>) {
    forall x: nat :: HasTab(m1, d, x) ==> HasTab(m0, d, x) || x in xs
  }

  lemma TabsTwice(m0: map<int, Page>, m1: map<int, Page>, m2: map<int, Page>, d: int, xs: set<nat>, ys: set<nat>)
    requires TabsWithin(m0, m1, d, xs) && TabsWithin(m1, m2, d, ys)
    ensures TabsWithin(m0, m2, d, xs + ys)
  {
  }

  /** What does not touch the directory itself adds no table to it. */
  lemma TabsStay(m0: map<int, Page>, m1: map<int, Page>, m2: map<int, Page>, d: int, xs: set<nat>)
    requires TabsWithin(m0, m1, d, xs) && d in m1 && d in m2 && m2[d] == m1[d]
    ensures TabsWithin(m0, m2, d, xs)
  {
    assert forall x: nat :: HasTab(m2, d, x) ==> HasTab(m1, d, x);
  }

  // ---- the ranges of consecutive pages ------------------------------------

  ghost function Window(v: nat, k: nat): set<nat> {
    if k == 0 then {} else Window(v, k - 1) + {Pdx(v + k - 1)}
  }

  lemma {:induction false} WindowIs(v: nat, k: nat)
    requires k > 0
    ensures forall x: nat :: x in Window(v, k) <==> Pdx(v) <= x <= Pdx(v + k - 1)
  {
    if k > 1 {
      WindowIs(v, k - 1);
      assert Pdx(v + k - 2) <= Pdx(v + k - 1) <= Pdx(v + k - 2) + 1;
    }
  }

  // ---- the pages of a directory -------------------------------------------

  ghost function TabSet(mem: map<int, Page>, d: int): set<nat> {
    set x: nat | x < NENTRIES && HasTab(mem, d, x)
  }

  predicate HasLeaf(mem: map<int, Page>, d: int, v: nat) {
    v < USERPAGES && Lookup(mem, d, v).Pte?
  }

  ghost function LeafSet(mem: map<int, Page>, d: int): set<nat> {
    set v: nat | v < USERPAGES && HasLeaf(mem, d, v)
  }

  lemma {:induction false} SameSize(m: map<nat, int>)
    requires forall x, y :: x in m && y in m && m[x] == m[y] ==> x == y
    ensures |m.Values| == |m.Keys|
    decreases |m|
  {
    if x :| x in m {
      var rest := m - {x};
      SameSize(rest);
      assert m.Keys == rest.Keys + {x};
      assert m.Values == rest.Values + {m[x]} by {
        forall p | p in m.Values ensures p in rest.Values || p == m[x] {
          var y :| y in m && m[y] == p;
          if y != x { assert y in rest && rest[y] == p; }
        }
      }
    } else {
      assert m.Keys == {} && m.Values == {};
    }
  }

  ghost function TabPages(uses: map<int, Use>, d: int): set<int> {
    set p | p in uses && uses[p].Tab? && uses[p].dir == d
  }

  ghost function LeafPages(uses: map<int, Use>, d: int): set<int> {
    set p | p in uses && uses[p].Leaf? && uses[p].dir == d
  }

  lemma TabPagesSize(w: World, d: int)
    requires Sound(w) && d in w.dirs
    ensures |TabPages(w.uses, d)| == |TabSet(w.mem, d)|
  {
    var m := map x | x in TabSet(w.mem, d) :: Entry(w.mem, d, x).page;
    forall x, y | x in m && y in m && m[x] == m[y] ensures x == y {
      assert TabOk(w, d, x) && TabOk(w, d, y);
    }
    SameSize(m);
    assert m.Keys == TabSet(w.mem, d);
    forall p ensures p in m.Values <==> p in TabPages(w.uses, d) {
      if p in m.Values {
        var x :| x in m && m[x] == p;
        assert TabOk(w, d, x);
      }
      if p in TabPages(w.uses, d) {
        assert UseOk(w, p) && w.uses[p].x in m;
      }
    }
    assert m.Values == TabPages(w.uses, d);
  }

  lemma LeafPagesSize(w: World, d: int)
    requires Sound(w) && d in w.dirs
    ensures |LeafPages(w.uses, d)| == |LeafSet(w.mem, d)|
  {
    var m := map v | v in LeafSet(w.mem, d) :: Lookup(w.mem, d, v).page;
    forall x, y | x in m && y in m && m[x] == m[y] ensures x == y {
      assert LeafOk(w, d, x) && LeafOk(w, d, y);
    }
    SameSize(m);
    assert m.Keys == LeafSet(w.mem, d);
    forall p ensures p in m.Values <==> p in LeafPages(w.uses, d) {
      if p in m.Values {
        var x :| x in m && m[x] == p;
        assert LeafOk(w, d, x);
      }
      if p in LeafPages(w.uses, d) {
        assert UseOk(w, p) && w.uses[p].v in m;
      }
    }
    assert m.Values == LeafPages(w.uses, d);
  }

  /** A directory owns its root, its tables and its user pages. */
  lemma DirSize(w: World, d: int)
    requires Sound(w) && d in w.dirs
    ensures |OwnedBy(w.uses, d)| == 1 + |TabSet(w.mem, d)| + |LeafSet(w.mem, d)|
  {
    TabPagesSize(w, d);
    LeafPagesSize(w, d);
    assert RootOk(w, d);
    var ts, ls := TabPages(w.uses, d), LeafPages(w.uses, d);
    forall p ensures p in OwnedBy(w.uses, d) <==> p in {d} + ts + ls {
      assert UseOk(w, p);
    }
    assert OwnedBy(w.uses, d) == {d} + ts + ls && ts !! ls && {d} !! ts + ls;
  }

  // ---- the kernel's tables, and those of the first user pages --------------

  /** 56 tables for the memory from KERNBASE on and 8 for the devices. */
  predicate KernelTable(x: nat) {
    0x200 <= x < 0x238 || 0x3F8 <= x < 0x400
  }

  /** The pages of a directory that has the kernel's mappings only. */
  const KPAGES: nat := 1 + 56 + 8

  ghost function Between(lo: nat, hi: nat): (xs: set<nat>)
    requires lo <= hi
    ensures |xs| == hi - lo && forall x :: x in xs <==> lo <= x < hi
    decreases hi - lo
  {
    if lo == hi then {} else Between(lo, hi - 1) + {hi - 1}
  }

  /** Tables for the first v user pages. */
  function UserTables(v: nat): nat {
    if v == 0 then 0 else Pdx(v - 1) + 1
  }

  lemma TwoRanges(xs: set<nat>, a: nat, b: nat, c: nat, d: nat, e: nat)
    requires a <= b <= c <= d && e <= a && forall x: nat :: x in xs <==> x < e || a <= x < b || c <= x < d
    ensures |xs| == e + (b - a) + (d - c)
  {
    var p, q, r := Between(0, e), Between(a, b), Between(c, d);
    assert xs == p + q + r && p !! q && p + q !! r;
  }

  ghost predicate TabsAre(mem: map<int, Page>, d: int, n: nat) {
    forall x: nat :: HasTab(mem, d, x) <==> x < n || KernelTable(x)
  }

  lemma TabsCount(mem: map<int, Page>, d: int, n: nat)
    requires TabsAre(mem, d, n) && n <= 0x200
    ensures |TabSet(mem, d)| == KPAGES - 1 + n
  {
    var a, b, c, e := 0x200, 0x238, 0x3F8, 0x400;
    forall x: nat ensures x in TabSet(mem, d) <==> x < n || a <= x < b || c <= x < e {
      assert HasTab(mem, d, x) <==> x < n || KernelTable(x);
    }
    TwoRanges(TabSet(mem, d), a, b, c, e, n);
  }

  /** A directory without user tables that lacks one of the kernel's. */
  lemma TabsLack(mem: map<int, Page>, d: int, y: nat)
    requires (forall x: nat :: HasTab(mem, d, x) ==> KernelTable(x)) && KernelTable(y) && !HasTab(mem, d, y)
    ensures |TabSet(mem, d)| < KPAGES - 1
  {
    var all := set x: nat | x < NENTRIES && KernelTable(x);
    var a, b, c, e := 0x200, 0x238, 0x3F8, 0x400;
    forall x: nat ensures x in all <==> x < 0 || a <= x < b || c <= x < e {
      assert x in all <==> x < NENTRIES && KernelTable(x);
    }
    TwoRanges(all, a, b, c, e, 0);
    Smaller(TabSet(mem, d), all - {y});
  }

  lemma {:induction false} Smaller(xs: set<nat>, ts: set<nat>)
    requires xs <= ts
    ensures |xs| <= |ts|
    decreases |xs|
  {
    if x :| x in xs {
      Smaller(xs - {x}, ts - {x});
    }
  }
}
