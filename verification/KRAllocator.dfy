/** The storage allocator of umalloc.c.  Addresses count units of one Header; the
    header at address a is next[a] and size[a].  The static header base lies
    below everything that sbrk returns. */
module KRAllocator {

  const BASE: int := 0
  const NULL: int := -1
  const HEADER: nat := 8          // sizeof(Header)
  const MINUNITS: nat := 4096

  // ---- the free list ------------------------------------------------------

  /** nodes lists the free list from base on, in address order: every block ends
      strictly before the next one begins, so the list is sorted, its blocks are
      disjoint, and no two of them could be merged. */
  ghost predicate Apart(nodes: seq<int>, size: map<int, nat>) {
    && (forall i :: 0 <= i < |nodes| ==> nodes[i] in size)
    && (forall i :: EndsBefore(nodes, size, i))
  }

  ghost predicate EndsBefore(nodes: seq<int>, size: map<int, nat>, i: int) {
    0 <= i < |nodes| - 1 && nodes[i] in size ==> nodes[i] + size[nodes[i]] < nodes[i + 1]
  }

  /** The pointers run through nodes and back to base. */
  ghost predicate Ring(nodes: seq<int>, next: map<int, int>) {
    && (forall i :: 0 <= i < |nodes| ==> nodes[i] in next)
    && (forall i :: LeadsOn(nodes, next, i))
  }

  ghost predicate LeadsOn(nodes: seq<int>, next: map<int, int>, i: int) {
    0 <= i < |nodes| && nodes[i] in next ==> next[nodes[i]] == nodes[After(nodes, i)]
  }

  ghost predicate Listed(nodes: seq<int>, next: map<int, int>, size: map<int, nat>) {
    && |nodes| > 0 && nodes[0] == BASE && Apart(nodes, size) && Ring(nodes, next)
    && size[BASE] == 0 && forall i :: 0 < i < |nodes| ==> size[nodes[i]] > 0
  }

  // ---- what the units belong to -------------------------------------------

  /** Live blocks have intact headers and overlap neither each other nor a free
      block. */
  ghost predicate LiveOk(nodes: seq<int>, size: map<int, nat>, live: map<int, nat>) {
    && (forall a :: a in live ==> a > BASE && live[a] > 0 && a in size && size[a] == live[a])
    && (forall a, b :: a in live && b in live && a < b ==> a + live[a] <= b)
    && (forall a, i :: a in live && 0 <= i < |nodes| && nodes[i] in size ==>
         nodes[i] != a && (a + live[a] <= nodes[i] || nodes[i] + size[nodes[i]] <= a))
  }

  ghost predicate InFree(nodes: seq<int>, size: map<int, nat>, u: int) {
    exists i :: 0 <= i < |nodes| && nodes[i] in size && nodes[i] <= u < nodes[i] + size[nodes[i]]
  }

  ghost predicate InLive(live: map<int, nat>, u: int) {
    exists a :: a in live && a <= u < a + live[a]
  }

  /** The units obtained from sbrk are exactly those of the free and the live
      blocks. */
  ghost predicate Covers(nodes: seq<int>, size: map<int, nat>, live: map<int, nat>, arena: set<int>) {
    forall u :: u in arena <==> InFree(nodes, size, u) || InLive(live, u)
  }

  /** The units a .. a + n. */
  ghost function Range(a: int, n: nat): (r: set<int>)
    ensures forall u :: u in r <==> a <= u < a + n
  {
    if n == 0 then {} else Range(a, n - 1) + {a + n - 1}
  }

  ghost predicate Space(nodes: seq<int>, size: map<int, nat>, live: map<int, nat>, arena: set<int>) {
    LiveOk(nodes, size, live) && Covers(nodes, size, live, arena)
  }

  /** The allocator's invariant. */
  ghost predicate World(nodes: seq<int>, next: map<int, int>, size: map<int, nat>, freep: int, brk: int,
                        live: map<int, nat>, arena: set<int>) {
    && brk > BASE && (forall u :: u in arena ==> BASE < u < brk)
    && Space(nodes, size, live, arena)
    && (if freep == NULL then nodes == [] && live == map[] else Listed(nodes, next, size) && freep in nodes)
  }

  // ---- where a freed block goes -------------------------------------------

  /** The last node below bp. */
  ghost function Before(nodes: seq<int>, bp: int): (k: nat)
    requires |nodes| > 0 && nodes[0] < bp
    ensures k < |nodes| && nodes[k] < bp
    ensures forall i :: k < i < |nodes| ==> nodes[i] >= bp
    decreases |nodes|
  {
    if nodes[|nodes| - 1] < bp then |nodes| - 1 else Before(nodes[..|nodes| - 1], bp)
  }

  /** The free list after bp, of size sz, has been put behind node k. */
  ghost function Inserted(nodes: seq<int>, size: map<int, nat>, k: nat, bp: int, sz: nat): seq<int>
    requires k < |nodes| && nodes[k] in size
  {
    var lower := nodes[k] + size[nodes[k]] == bp;
    var upper := k + 1 < |nodes| && bp + sz == nodes[k + 1];
    nodes[..k + 1] + (if lower then [] else [bp]) + (if upper then nodes[k + 2..] else nodes[k + 1..])
  }

  /** A call of sbrk, and whether it was granted. */
  datatype Request = Request(units: nat, granted: bool)

  function CoreUnits(nunits: nat): nat {
    if nunits < MINUNITS then MINUNITS else nunits
  }

  class Allocator {
    var next: map<int, int>
    var size: map<int, nat>
    var freep: int
    var brk: int
    ghost var nodes: seq<int>
    ghost var live: map<int, nat>
    ghost var arena: set<int>
    ghost var asked: seq<Request>        // the calls of sbrk so far

    /** Before the first malloc there is no list; afterwards the ring is sorted,
        coalesced, and freep points into it. */
    ghost predicate Valid()
      reads this
    {
      World(nodes, next, size, freep, brk, live, arena)
    }

    constructor (brk: int)
      requires brk > BASE
      ensures Valid() && live == map[] && arena == {} && freep == NULL
    {
      next, size, freep, this.brk := map[], map[], NULL, brk;
      nodes, live, arena, asked := [], map[], {}, [];
    }

    /** sbrk of nu units: fails, or returns room at or above the break (other
        callers may have moved it). */
    method Sbrk(nu: nat) returns (p: int)
      requires brk > BASE
      modifies this`brk, this`asked
      ensures p == NULL ==> brk == old(brk)
      ensures p != NULL ==> p >= old(brk) && brk == p + nu
      ensures asked == old(asked) + [Request(nu, p != NULL)]
    {
      if * {
        asked := asked + [Request(nu, false)];
        return NULL;
      }
      var gap: int :| gap >= 0;
      p := brk + gap;
      brk := p + nu;
      asked := asked + [Request(nu, true)];
    }

    /** free's search for the node to insert behind. */
    method FindPlace(bp: int) returns (p: int)
      requires Valid() && bp in live
      ensures freep != NULL && p == nodes[Before(nodes, bp)]
    {
      assert freep != NULL;
      ghost var k := Before(nodes, bp);
      ghost var j := IndexOf(nodes, freep);
      p := freep;
      while !(bp > p && bp < next[p])
        invariant 0 <= j < |nodes| && p == nodes[j]
        decreases if j <= k then k - j else k + |nodes| - j
      {
        Around(nodes, next, size, j, k, bp);
        if p >= next[p] && (bp > p || bp < next[p]) {
          break;
        }
        NextIsNode(nodes, next, j);
        p := next[p];
        j := if j + 1 < |nodes| then j + 1 else 0;
      }
      Around(nodes, next, size, j, k, bp);
    }

    /** free of the block whose header is bp. */
    method Free(bp: int)
      requires Valid() && bp in live
      modifies this`next, this`size, this`freep, this`nodes, this`live
      ensures Valid() && freep != NULL && live == old(live) - {bp}
      ensures HasLarge(nodes, size, old(live)[bp])
    {
      var p := FindPlace(bp);
      FreeReady(nodes, next, size, freep, brk, live, arena, bp);
      FreeWorld(nodes, next, size, freep, brk, live, arena, bp);
      LinkIn(p, bp);
      freep := p;
      nodes := Inserted(nodes, old(size), Before(nodes, bp), bp, old(size)[bp]);
      live := live - {bp};
    }

    /** The header fields of the list take in bp behind p, with one or both of its
        neighbours if they touch. */
    method LinkIn(p: int, bp: int)
      requires p in next && p in size && bp in size && next[p] in next && next[p] in size && p != bp
      modifies this`next, this`size
      ensures (next, size) == Linked(old(next), old(size), p, bp)
    {
      var nx := next[p];
      if bp + size[bp] == nx {
        size := size[bp := size[bp] + size[nx]];
        next := next[bp := next[nx]];
      } else {
        next := next[bp := nx];
      }
      if p + size[p] == bp {
        size := size[p := size[p] + size[bp]];
        next := next[p := next[bp]];
      } else {
        next := next[p := bp];
      }
    }

    /** morecore: a new block from sbrk goes on the free list. */
    method MoreCore(nunits: nat) returns (p: int)
      requires Valid() && freep != NULL
      modifies this
      ensures Valid() && freep != NULL && live == old(live)
      ensures p == NULL ==>
        arena == old(arena) && nodes == old(nodes) && size == old(size) && freep == old(freep) && next == old(next)
      ensures p != NULL ==> p == freep && arena > old(arena)
      ensures p != NULL ==> arena == old(arena) + Range(brk - CoreUnits(nunits), CoreUnits(nunits))
      ensures p != NULL ==> HasLarge(nodes, size, nunits)
      ensures asked == old(asked) + [Request(CoreUnits(nunits), p != NULL)]
    {
      var nu := CoreUnits(nunits);
      var hp := Sbrk(nu);
      if hp == NULL {
        return NULL;
      }
      FreeCore(hp, nu, old(brk));
      return freep;
    }

    /** The new block is freed, as if malloc had given it. */
    method FreeCore(hp: int, nu: nat, ghost top: int)
      requires World(nodes, next, size, freep, top, live, arena) && freep != NULL && hp >= top && nu > 0
      requires brk == hp + nu
      modifies this`next, this`size, this`freep, this`nodes, this`live, this`arena
      ensures Valid() && freep != NULL && live == old(live) && HasLarge(nodes, size, nu)
      ensures arena > old(arena) && arena == old(arena) + Range(hp, nu)
    {
      AddBlock(hp, nu, top);
      Free(hp);
    }

    /** The header that morecore writes: the block is as if malloc had given it. */
    method AddBlock(hp: int, nu: nat, ghost top: int)
      requires World(nodes, next, size, freep, top, live, arena) && freep != NULL && hp >= top && nu > 0
      requires brk == hp + nu
      modifies this`size, this`live, this`arena
      ensures Valid() && live == old(live)[hp := nu] && live - {hp} == old(live)
      ensures arena > old(arena) && arena == old(arena) + Range(hp, nu)
    {
      GrowWorld(nodes, next, size, freep, top, live, arena, hp, nu);
      size := size[hp := nu];
      arena := arena + Range(hp, nu);
      live := live[hp := nu];
    }

    /** malloc's list of one: the static header, pointing to itself. */
    method InitList()
      requires Valid() && freep == NULL
      modifies this`next, this`size, this`freep, this`nodes
      ensures Valid() && freep == BASE && old(nodes) == [] && nodes == [BASE] && BASE in size && size[BASE] == 0
    {
      InitWorld(nodes, next, size, brk, live, arena);
      next, size, freep := next[BASE := BASE], size[BASE := 0], BASE;
      nodes := [BASE];
    }

    /** malloc's cut from a block that is large enough, the one after prevp. */
    method Take(prevp: int, block: int, nunits: nat, ghost j: nat) returns (p: int)
      requires Valid() && freep != NULL && nunits > 0
      requires j + 1 < |nodes| && prevp == nodes[j] && block == nodes[j + 1] && block in size && size[block] >= nunits
      modifies this`next, this`size, this`freep, this`nodes, this`live
      ensures Valid() && freep != NULL && p !in old(live) && live == old(live)[p := nunits]
    {
      p := block;
      if size[p] == nunits {
        ExactWorld(nodes, next, size, freep, brk, live, arena, j);
        next := next[prevp := next[p]];
        nodes := RemoveNode(nodes, j + 1);
      } else {
        ghost var s0 := size;
        size := size[p := size[p] - nunits];
        p := p + size[p];
        size := size[p := nunits];
        TailWorld(nodes, next, s0, freep, brk, live, arena, j, nunits, p, size);
      }
      live := live[p := nunits];
      freep := prevp;
    }

    /** malloc's loop over the ring, from the list that is there. */
    method Search(nunits: nat) returns (ap: int, ghost grown: nat)
      requires Valid() && freep != NULL && nunits > 0
      modifies this
      ensures Valid() && grown <= 1 && arena >= old(arena) && (grown == 0 ==> arena == old(arena))
      ensures ap == 0 ==> live == old(live) && grown == 0 && !HasLarge(nodes, size, nunits)
      ensures ap != 0 ==> ap - 1 !in old(live) && live == old(live)[ap - 1 := nunits]
      ensures if HasLarge(old(nodes), old(size), nunits) then ap != 0 && asked == old(asked)
              else asked == old(asked) + [Request(CoreUnits(nunits), ap != 0)]
    {
      grown := 0;
      var prevp := freep;
      ghost var s := IndexOf(nodes, freep);
      ghost var j := s;
      NextBlock(nodes, next, size, freep, brk, live, arena, j);
      var p := next[prevp];
      while true
        invariant Valid() && freep != NULL && live == old(live)
        invariant grown <= 1 && arena >= old(arena) && (grown == 0 ==> arena == old(arena))
        invariant 0 <= s < |nodes| && freep == nodes[s]
        invariant 0 <= j < |nodes| && prevp == nodes[j] && p == nodes[After(nodes, j)]
        invariant SmallSince(nodes, size, nunits, s, j)
        invariant if grown == 0 then nodes == old(nodes) && size == old(size) && asked == old(asked)
                  else && HasLarge(nodes, size, nunits) && !HasLarge(old(nodes), old(size), nunits)
                       && asked == old(asked) + [Request(CoreUnits(nunits), true)]
        decreases 1 - grown, if j >= s then |nodes| - (j - s) else s - j
      {
        NextBlock(nodes, next, size, freep, brk, live, arena, j);
        if size[p] >= nunits {
          assert HasLarge(nodes, size, nunits);
          var q := Take(prevp, p, nunits, j);
          return q + 1, grown;
        }
        if p == freep {
          NoneLarge(nodes, next, size, freep, brk, live, arena, nunits, s, j);
          p := MoreCore(nunits);
          if p == NULL {
            return 0, grown;
          }
          grown := grown + 1;
          s := IndexOf(nodes, freep);
          j := s;
        } else {
          SmallNext(nodes, size, nunits, s, j);
          j := After(nodes, j);
        }
        NextBlock(nodes, next, size, freep, brk, live, arena, j);
        prevp := p;
        p := next[p];
      }
    }

    /** malloc.  The result is the address after the header, or 0.  With a block that
        is large enough on the list sbrk is not called; without one it is called
        once, and the result is 0 exactly if it refuses.  grown counts the calls that
        were granted. */
    method Malloc(nbytes: nat) returns (ap: int, ghost grown: nat)
      requires Valid()
      modifies this
      ensures Valid() && grown <= 1 && arena >= old(arena) && (grown == 0 ==> arena == old(arena))
      ensures ap == 0 ==> live == old(live) && grown == 0 && !HasLarge(nodes, size, Units(nbytes))
      ensures ap != 0 ==> ap - 1 !in old(live) && live == old(live)[ap - 1 := Units(nbytes)]
      ensures if HasLarge(old(nodes), old(size), Units(nbytes)) then ap != 0 && asked == old(asked)
              else asked == old(asked) + [Request(CoreUnits(Units(nbytes)), ap != 0)]
    {
      if freep == NULL {
        InitList();
      }
      ap, grown := Search(Units(nbytes));
    }
  }

  // ---- malloc -------------------------------------------------------------

  /** Units for a header and nbytes bytes. */
  function Units(nbytes: nat): (n: nat)
    ensures n >= 1 && n * HEADER >= nbytes + HEADER && n * HEADER < nbytes + 2 * HEADER
  {
    (nbytes + HEADER - 1) / HEADER + 1
  }

  function After(nodes: seq<int>, j: nat): (k: nat)
    requires j < |nodes|
    ensures k < |nodes|
  {
    if j + 1 < |nodes| then j + 1 else 0
  }

  ghost predicate HasLarge(nodes: seq<int>, size: map<int, nat>, n: nat) {
    exists i :: 0 <= i < |nodes| && nodes[i] in size && size[nodes[i]] >= n
  }

  /** Every block from the one after s up to j, going round, is too small. */
  ghost predicate SmallSince(nodes: seq<int>, size: map<int, nat>, n: nat, s: nat, j: nat) {
    forall i :: 0 <= i < |nodes| && nodes[i] in size && (if j >= s then s < i <= j else i > s || i <= j) ==>
      size[nodes[i]] < n
  }

  lemma SmallNext(nodes: seq<int>, size: map<int, nat>, n: nat, s: nat, j: nat)
    requires SmallSince(nodes, size, n, s, j) && s < |nodes| && j < |nodes|
    requires After(nodes, j) != s && nodes[After(nodes, j)] in size && size[nodes[After(nodes, j)]] < n
    ensures SmallSince(nodes, size, n, s, After(nodes, j))
  {
  }

  lemma AllSmall(nodes: seq<int>, size: map<int, nat>, n: nat, s: nat, j: nat)
    requires SmallSince(nodes, size, n, s, j) && s < |nodes| && j < |nodes| && Apart(nodes, size)
    requires After(nodes, j) == s && size[nodes[s]] < n
    ensures forall i :: 0 <= i < |nodes| ==> size[nodes[i]] < n
  {
  }

  /** The search has come round without finding a block that is large enough. */
  lemma NoneLarge(nodes: seq<int>, next: map<int, int>, size: map<int, nat>, freep: int, brk: int,
                  live: map<int, nat>, arena: set<int>, n: nat, s: nat, j: nat)
    requires World(nodes, next, size, freep, brk, live, arena) && freep != NULL
    requires SmallSince(nodes, size, n, s, j) && s < |nodes| && j < |nodes|
    requires nodes[After(nodes, j)] == nodes[s] && nodes[s] in size && size[nodes[s]] < n
    ensures !HasLarge(nodes, size, n)
  {
    Sorted(nodes, size);
    AllSmall(nodes, size, n, s, j);
  }

  lemma InitWorld(nodes: seq<int>, next: map<int, int>, size: map<int, nat>, brk: int, live: map<int, nat>,
                  arena: set<int>)
    requires World(nodes, next, size, NULL, brk, live, arena)
    ensures World([BASE], next[BASE := BASE], size[BASE := 0], BASE, brk, live, arena)
  {
    var sz := size[BASE := 0];
    forall i ensures EndsBefore([BASE], sz, i) {
    }
    forall u ensures InFree([BASE], sz, u) <==> InFree(nodes, size, u) {
    }
  }

  lemma GrowWorld(nodes: seq<int>, next: map<int, int>, size: map<int, nat>, freep: int, brk: int,
                  live: map<int, nat>, arena: set<int>, hp: int, nu: nat)
    requires World(nodes, next, size, freep, brk, live, arena) && freep != NULL && hp >= brk && nu > 0
    ensures World(nodes, next, size[hp := nu], freep, hp + nu, live[hp := nu], arena + Range(hp, nu))
    ensures live[hp := nu] - {hp} == live && hp in arena + Range(hp, nu) && hp !in arena
  {
    GrowSpace(nodes, next, size, live, arena, hp, nu);
  }

  lemma ExactWorld(nodes: seq<int>, next: map<int, int>, size: map<int, nat>, freep: int, brk: int,
                   live: map<int, nat>, arena: set<int>, j: nat)
    requires World(nodes, next, size, freep, brk, live, arena) && freep != NULL && j + 1 < |nodes|
    ensures var p := nodes[j + 1];
      && p !in live && p in next && p in size && nodes[j] >= BASE
      && World(RemoveNode(nodes, j + 1), next[nodes[j] := next[p]], size, nodes[j], brk, live[p := size[p]], arena)
  {
    Sorted(nodes, size);
    TakeExact(nodes, next, size, live, arena, j);
    assert RemoveNode(nodes, j + 1)[j] == nodes[j] && nodes[j] >= nodes[0];
    var p := nodes[j + 1];
    WorldMade(RemoveNode(nodes, j + 1), next[nodes[j] := next[p]], size, nodes[j], brk, live[p := size[p]], arena);
  }

  lemma TailWorld(nodes: seq<int>, next: map<int, int>, size: map<int, nat>, freep: int, brk: int,
                  live: map<int, nat>, arena: set<int>, j: nat, n: nat, q: int, sz: map<int, nat>)
    requires World(nodes, next, size, freep, brk, live, arena) && freep != NULL && j + 1 < |nodes|
    requires nodes[j + 1] in size && 0 < n < size[nodes[j + 1]]
    requires q == nodes[j + 1] + size[nodes[j + 1]] - n && sz == size[nodes[j + 1] := size[nodes[j + 1]] - n][q := n]
    ensures q !in live && nodes[j] >= BASE && World(nodes, next, sz, nodes[j], brk, live[q := n], arena)
  {
    Sorted(nodes, size);
    TakeTail(nodes, next, size, live, arena, j + 1, n, q, sz);
    assert nodes[j] >= nodes[0];
    WorldMade(nodes, next, sz, nodes[j], brk, live[q := n], arena);
  }

  /** The pointer of a node leads to the node after it, which has a size. */
  lemma NextBlock(nodes: seq<int>, next: map<int, int>, size: map<int, nat>, freep: int, brk: int,
                  live: map<int, nat>, arena: set<int>, j: nat)
    requires World(nodes, next, size, freep, brk, live, arena) && freep != NULL && j < |nodes|
    ensures nodes[j] in next && next[nodes[j]] == nodes[After(nodes, j)] && nodes[After(nodes, j)] in size
    ensures freep in nodes
  {
    NextIsNode(nodes, next, j);
  }

  lemma WorldMade(nodes: seq<int>, next: map<int, int>, size: map<int, nat>, freep: int, brk: int,
                  live: map<int, nat>, arena: set<int>)
    requires brk > BASE && (forall u :: u in arena ==> BASE < u < brk)
    requires Space(nodes, size, live, arena) && Listed(nodes, next, size) && freep in nodes && freep >= BASE
    ensures World(nodes, next, size, freep, brk, live, arena)
  {
  }

  // ---- free ---------------------------------------------------------------

  /** The header fields after bp has been linked in behind p: umalloc.c:33-42. */
  function Linked(next: map<int, int>, size: map<int, nat>, p: int, bp: int): (map<int, int>, map<int, nat>)
    requires p in next && p in size && bp in size && next[p] in next && next[p] in size && p != bp
  {
    var nx := next[p];
    var merged := bp + size[bp] == nx;
    var size1 := if merged then size[bp := size[bp] + size[nx]] else size;
    var next1 := if merged then next[bp := next[nx]] else next[bp := nx];
    if p + size1[p] == bp then (next1[p := next1[bp]], size1[p := size1[p] + size1[bp]])
    else (next1[p := bp], size1)
  }

  /** bp fits between node k and the node after it. */
  ghost predicate Gap(nodes: seq<int>, next: map<int, int>, size: map<int, nat>, k: nat, bp: int) {
    && Listed(nodes, next, size) && k < |nodes| && bp in size && size[bp] > 0
    && nodes[k] + size[nodes[k]] <= bp && nodes[k] < bp
    && next[nodes[k]] in next && next[nodes[k]] in size
    && (k + 1 < |nodes| ==> bp + size[bp] <= nodes[k + 1])
  }

  ghost function InsertNode(nodes: seq<int>, k: nat, bp: int): seq<int>
    requires k < |nodes|
  {
    nodes[..k + 1] + [bp] + nodes[k + 1..]
  }

  ghost function RemoveNode(nodes: seq<int>, i: nat): seq<int>
    requires i < |nodes|
  {
    nodes[..i] + nodes[i + 1..]
  }

  ghost predicate Distinct(nodes: seq<int>) {
    forall i, j :: 0 <= i < j < |nodes| ==> nodes[i] != nodes[j]
  }

  lemma InsertRing(nodes: seq<int>, next: map<int, int>, k: nat, bp: int)
    requires Ring(nodes, next) && Distinct(nodes) && k < |nodes| && bp !in nodes
    ensures Ring(InsertNode(nodes, k, bp), next[bp := next[nodes[k]]][nodes[k] := bp])
    ensures Distinct(InsertNode(nodes, k, bp))
  {
    var ns, nx := InsertNode(nodes, k, bp), next[bp := next[nodes[k]]][nodes[k] := bp];
    forall i | 0 <= i < |ns| ensures ns[i] == if i <= k then nodes[i] else if i == k + 1 then bp else nodes[i - 1] {
    }
    forall i ensures LeadsOn(ns, nx, i) {
      assert LeadsOn(nodes, next, i) && LeadsOn(nodes, next, i - 1) && LeadsOn(nodes, next, k);
    }
  }

  /** Unlinking the node after node i. */
  lemma RemoveRing(nodes: seq<int>, next: map<int, int>, i: nat)
    requires Ring(nodes, next) && Distinct(nodes) && i + 1 < |nodes|
    ensures Ring(RemoveNode(nodes, i + 1), next[nodes[i] := next[nodes[i + 1]]])
    ensures Distinct(RemoveNode(nodes, i + 1))
  {
    var ns, nx := RemoveNode(nodes, i + 1), next[nodes[i] := next[nodes[i + 1]]];
    forall x | 0 <= x < |ns| ensures ns[x] == if x <= i then nodes[x] else nodes[x + 1] {
    }
    forall x ensures LeadsOn(ns, nx, x) {
      assert LeadsOn(nodes, next, x) && LeadsOn(nodes, next, x + 1) && LeadsOn(nodes, next, i + 1);
    }
    forall x, y | 0 <= x < y < |ns| ensures ns[x] != ns[y] {
      var p, q := if x <= i then x else x + 1, if y <= i then y else y + 1;
      assert ns[x] == nodes[p] && ns[y] == nodes[q] && p < q;
    }
  }

  /** Blocks end strictly before the next one, except that those at the places
      of touch end exactly where the next one begins. */
  ghost predicate Touching(nodes: seq<int>, size: map<int, nat>, touch: set<int>) {
    && (forall i :: 0 <= i < |nodes| ==> nodes[i] in size)
    && (forall i :: TouchesAt(nodes, size, touch, i))
  }

  ghost predicate TouchesAt(nodes: seq<int>, size: map<int, nat>, touch: set<int>, i: int) {
    0 <= i < |nodes| - 1 && nodes[i] in size ==>
      if i in touch then nodes[i] + size[nodes[i]] == nodes[i + 1] else nodes[i] + size[nodes[i]] < nodes[i + 1]
  }

  lemma InsertTouching(nodes: seq<int>, size: map<int, nat>, k: nat, bp: int)
    requires Apart(nodes, size) && k < |nodes| && bp in size
    requires nodes[k] + size[nodes[k]] <= bp && (k + 1 < |nodes| ==> bp + size[bp] <= nodes[k + 1])
    ensures Touching(InsertNode(nodes, k, bp), size,
                     (if nodes[k] + size[nodes[k]] == bp then {k} else {})
                     + (if k + 1 < |nodes| && bp + size[bp] == nodes[k + 1] then {k + 1} else {}))
  {
    var ns := InsertNode(nodes, k, bp);
    var touch := (if nodes[k] + size[nodes[k]] == bp then {k} else {})
                 + (if k + 1 < |nodes| && bp + size[bp] == nodes[k + 1] then {k + 1} else {});
    forall i | 0 <= i < |ns| ensures ns[i] == if i <= k then nodes[i] else if i == k + 1 then bp else nodes[i - 1] {
    }
    forall i ensures TouchesAt(ns, size, touch, i) {
      assert EndsBefore(nodes, size, i) && EndsBefore(nodes, size, i - 1);
    }
  }

  /** Merging the block at i with the one after it. */
  lemma MergeTouching(nodes: seq<int>, size: map<int, nat>, touch: set<int>, i: nat)
    requires Touching(nodes, size, touch) && Distinct(nodes)
    requires i in touch && i + 1 < |nodes| && forall x :: x in touch ==> x <= i
    ensures Touching(RemoveNode(nodes, i + 1), size[nodes[i] := size[nodes[i]] + size[nodes[i + 1]]], touch - {i})
  {
    var ns, sz := RemoveNode(nodes, i + 1), size[nodes[i] := size[nodes[i]] + size[nodes[i + 1]]];
    forall x | 0 <= x < |ns| ensures ns[x] == if x <= i then nodes[x] else nodes[x + 1] {
    }
    forall x ensures TouchesAt(ns, sz, touch - {i}, x) {
      assert TouchesAt(nodes, size, touch, x) && TouchesAt(nodes, size, touch, x + 1);
    }
  }

  /** free's pointer and size updates in three steps: link bp in, merge it with
      the block above if they touch, merge it into the block below if they do. */
  ghost function UpperNext(next: map<int, int>, p: int, bp: int, upper: bool): map<int, int>
    requires p in next && next[p] in next && p != bp
  {
    var x1 := next[bp := next[p]][p := bp];
    if upper then x1[bp := x1[next[p]]] else x1
  }

  lemma NextIsNode(nodes: seq<int>, next: map<int, int>, k: nat)
    requires Ring(nodes, next) && k < |nodes|
    ensures next[nodes[k]] == nodes[After(nodes, k)] && next[nodes[k]] in next
  {
    assert LeadsOn(nodes, next, k);
  }

  lemma InsertedIs(nodes: seq<int>, size: map<int, nat>, k: nat, bp: int, sz: nat, n2: seq<int>)
    requires k < |nodes| && nodes[k] in size
    requires n2 == nodes[..k + 1] + [bp] +
                   (if k + 1 < |nodes| && bp + sz == nodes[k + 1] then nodes[k + 2..] else nodes[k + 1..])
    ensures Inserted(nodes, size, k, bp, sz) == if nodes[k] + size[nodes[k]] == bp then RemoveNode(n2, k + 1) else n2
  {
    assert n2[..k + 1] == nodes[..k + 1];
  }

  lemma LinkedIs(next: map<int, int>, size: map<int, nat>, p: int, bp: int)
    requires p in next && p in size && bp in size && next[p] in next && next[p] in size && p != bp && next[p] != bp
    requires bp + size[bp] == next[p] ==> next[p] != p
    ensures var upper := bp + size[bp] == next[p];
      var x2 := UpperNext(next, p, bp, upper);
      bp in x2 && Linked(next, size, p, bp).0 == if p + size[p] == bp then x2[p := x2[bp]] else x2
  {
  }

  lemma LinkedRing(nodes: seq<int>, next: map<int, int>, size: map<int, nat>, k: nat, bp: int)
    requires Gap(nodes, next, size, k, bp)
    ensures Ring(Inserted(nodes, size, k, bp, size[bp]), Linked(next, size, nodes[k], bp).0)
  {
    Sorted(nodes, size);
    GapFree(nodes, next, size, k, bp);
    NextIsNode(nodes, next, k);
    var p := nodes[k];
    var upper := k + 1 < |nodes| && bp + size[bp] == nodes[k + 1];
    var n2 := LinkedUpper(nodes, next, k, bp, upper);
    InsertedIs(nodes, size, k, bp, size[bp], n2);
    LinkedIs(next, size, p, bp);
    RemoveRing(n2, UpperNext(next, p, bp, upper), k);
  }

  lemma LinkedUpper(nodes: seq<int>, next: map<int, int>, k: nat, bp: int, upper: bool) returns (n2: seq<int>)
    requires Ring(nodes, next) && Distinct(nodes) && k < |nodes| && bp !in nodes && (upper ==> k + 1 < |nodes|)
    ensures next[nodes[k]] in next
    ensures n2 == nodes[..k + 1] + [bp] + (if upper then nodes[k + 2..] else nodes[k + 1..])
    ensures Ring(n2, UpperNext(next, nodes[k], bp, upper)) && Distinct(n2) && n2[k] == nodes[k] && n2[k + 1] == bp
  {
    NextIsNode(nodes, next, k);
    InsertRing(nodes, next, k, bp);
    n2 := InsertNode(nodes, k, bp);
    if upper {
      assert n2[k + 2] == nodes[k + 1];
      RemoveRing(n2, next[bp := next[nodes[k]]][nodes[k] := bp], k + 1);
      n2 := RemoveNode(n2, k + 2);
    }
  }

  /** bp is no node, and the block after the gap is not the base. */
  lemma GapFree(nodes: seq<int>, next: map<int, int>, size: map<int, nat>, k: nat, bp: int)
    requires Gap(nodes, next, size, k, bp)
    ensures bp !in nodes && bp > BASE && Distinct(nodes)
    ensures bp + size[bp] == next[nodes[k]] <==> k + 1 < |nodes| && bp + size[bp] == nodes[k + 1]
  {
    Sorted(nodes, size);
    NextIsNode(nodes, next, k);
  }

  /** The sizes after the upper merge, and the places that still touch. */
  lemma UpperTouching(nodes: seq<int>, size: map<int, nat>, k: nat, bp: int, n2: seq<int>, s2: map<int, nat>)
    requires Apart(nodes, size) && Distinct(nodes) && UpperMerged(nodes, size, k, bp, n2, s2)
    requires nodes[k] + size[nodes[k]] <= bp && (k + 1 < |nodes| ==> bp + size[bp] <= nodes[k + 1])
    ensures Touching(n2, s2, if nodes[k] + size[nodes[k]] == bp then {k} else {})
  {
    InsertTouching(nodes, size, k, bp);
    var t1: set<int> := if nodes[k] + size[nodes[k]] == bp then {k} else {};
    if k + 1 < |nodes| && bp + size[bp] == nodes[k + 1] {
      InsertedAt(nodes, k, bp);
      MergeTouching(InsertNode(nodes, k, bp), size, t1 + {k + 1}, k + 1);
      assert (t1 + {k + 1}) - {k + 1} == t1;
    } else {
      assert t1 + {} == t1;
    }
  }

  lemma LinkedApart(nodes: seq<int>, next: map<int, int>, size: map<int, nat>, k: nat, bp: int)
    requires Gap(nodes, next, size, k, bp)
    ensures Apart(Inserted(nodes, size, k, bp, size[bp]), Linked(next, size, nodes[k], bp).1)
  {
    GapFree(nodes, next, size, k, bp);
    var n2, s2 := LinkedParts(nodes, next, size, k, bp);
    UpperTouching(nodes, size, k, bp, n2, s2);
    LowerApart(n2, s2, k, nodes[k], bp, Inserted(nodes, size, k, bp, size[bp]), Linked(next, size, nodes[k], bp).1);
  }

  /** bp has been put behind node k and merged with the block above if they touch. */
  ghost predicate UpperMerged(nodes: seq<int>, size: map<int, nat>, k: nat, bp: int, n2: seq<int>, s2: map<int, nat>) {
    && k < |nodes| && bp in size && bp !in nodes
    && if k + 1 < |nodes| && bp + size[bp] == nodes[k + 1] then
         && nodes[k + 1] in size && k + 2 < |InsertNode(nodes, k, bp)|
         && n2 == RemoveNode(InsertNode(nodes, k, bp), k + 2) && s2 == size[bp := size[bp] + size[nodes[k + 1]]]
       else n2 == InsertNode(nodes, k, bp) && s2 == size
  }

  /** bp, behind node k, which is p, has been merged with it if they touch. */
  ghost predicate LowerMerged(n2: seq<int>, s2: map<int, nat>, k: nat, p: int, bp: int, ns: seq<int>,
                              sz: map<int, nat>) {
    && Distinct(n2) && k + 1 < |n2| && n2[k] == p && n2[k + 1] == bp && p in s2 && bp in s2
    && if p + s2[p] == bp then ns == RemoveNode(n2, k + 1) && sz == s2[p := s2[p] + s2[bp]] else ns == n2 && sz == s2
  }

  /** free's merging in two steps. */
  lemma LinkedParts(nodes: seq<int>, next: map<int, int>, size: map<int, nat>, k: nat, bp: int)
    returns (n2: seq<int>, s2: map<int, nat>)
    requires Gap(nodes, next, size, k, bp) && bp !in nodes && Distinct(nodes)
    ensures UpperMerged(nodes, size, k, bp, n2, s2)
    ensures LowerMerged(n2, s2, k, nodes[k], bp, Inserted(nodes, size, k, bp, size[bp]),
                        Linked(next, size, nodes[k], bp).1)
  {
    InsertedAt(nodes, k, bp);
    n2, s2 := InsertNode(nodes, k, bp), size;
    if k + 1 < |nodes| && bp + size[bp] == nodes[k + 1] {
      n2, s2 := RemoveNode(n2, k + 2), size[bp := size[bp] + size[nodes[k + 1]]];
    }
    NextIsNode(nodes, next, k);
    GapFree(nodes, next, size, k, bp);
    InsertedIs(nodes, size, k, bp, size[bp], n2);
    LinkedSizes(next, size, nodes[k], bp);
  }

  lemma InsertedAt(nodes: seq<int>, k: nat, bp: int)
    requires k < |nodes| && Distinct(nodes) && bp !in nodes
    ensures var ns := InsertNode(nodes, k, bp);
      && |ns| == |nodes| + 1 && Distinct(ns) && ns[k] == nodes[k] && ns[k + 1] == bp
      && (k + 1 < |nodes| ==> ns[k + 2] == nodes[k + 1])
  {
  }

  lemma LowerApart(n2: seq<int>, s2: map<int, nat>, k: nat, p: int, bp: int, ns: seq<int>, sz: map<int, nat>)
    requires LowerMerged(n2, s2, k, p, bp, ns, sz) && Touching(n2, s2, if p + s2[p] == bp then {k} else {})
    ensures Apart(ns, sz)
  {
    if p + s2[p] == bp {
      MergeTouching(n2, s2, {k}, k);
      TouchingNone(ns, sz, {k} - {k});
    } else {
      TouchingNone(ns, sz, {});
    }
  }

  lemma TouchingNone(nodes: seq<int>, size: map<int, nat>, touch: set<int>)
    requires Touching(nodes, size, touch) && forall i :: 0 <= i < |nodes| ==> i !in touch
    ensures Apart(nodes, size)
  {
    forall i ensures EndsBefore(nodes, size, i) {
      assert TouchesAt(nodes, size, touch, i);
    }
  }

  lemma LinkedSizes(next: map<int, int>, size: map<int, nat>, p: int, bp: int)
    requires p in next && p in size && bp in size && next[p] in next && next[p] in size && p != bp
    ensures var s2 := if bp + size[bp] == next[p] then size[bp := size[bp] + size[next[p]]] else size;
      Linked(next, size, p, bp).1 == if p + size[p] == bp then s2[p := s2[p] + s2[bp]] else s2
  {
  }

  lemma LinkedListed(nodes: seq<int>, next: map<int, int>, size: map<int, nat>, k: nat, bp: int)
    requires Gap(nodes, next, size, k, bp)
    ensures var (next', size') := Linked(next, size, nodes[k], bp);
      Listed(Inserted(nodes, size, k, bp, size[bp]), next', size')
  {
    LinkedRing(nodes, next, size, k, bp);
    LinkedApart(nodes, next, size, k, bp);
    GapFree(nodes, next, size, k, bp);
    var ns := Inserted(nodes, size, k, bp, size[bp]);
    var size' := Linked(next, size, nodes[k], bp).1;
    Sorted(nodes, size);
    forall i | 0 < i < |ns| ensures size'[ns[i]] > 0 {
      assert ns[i] in nodes || ns[i] == bp;
    }
  }

  // ---- the units during free ----------------------------------------------

  lemma InsertSpace(nodes: seq<int>, size: map<int, nat>, live: map<int, nat>, arena: set<int>, k: nat, bp: int)
    requires Space(nodes, size, live, arena) && k < |nodes| && bp in live
    ensures Space(InsertNode(nodes, k, bp), size, live - {bp}, arena)
  {
    var ns, l' := InsertNode(nodes, k, bp), live - {bp};
    assert ns[k + 1] == bp;
    forall i | 0 <= i < |ns| ensures ns[i] == if i <= k then nodes[i] else if i == k + 1 then bp else nodes[i - 1] {
    }
    forall u ensures u in arena <==> InFree(ns, size, u) || InLive(l', u) {
      InsertUnit(nodes, size, live, k, bp, u);
    }
  }

  lemma InsertUnit(nodes: seq<int>, size: map<int, nat>, live: map<int, nat>, k: nat, bp: int, u: int)
    requires k < |nodes| && bp in live && bp in size && size[bp] == live[bp]
    ensures InFree(InsertNode(nodes, k, bp), size, u) || InLive(live - {bp}, u) <==>
      InFree(nodes, size, u) || InLive(live, u)
  {
    var ns, l' := InsertNode(nodes, k, bp), live - {bp};
    if i :| 0 <= i < |nodes| && nodes[i] in size && nodes[i] <= u < nodes[i] + size[nodes[i]] {
      assert ns[if i <= k then i else i + 1] == nodes[i];
    }
    if a :| a in live && a <= u < a + live[a] {
      assert a == bp ==> ns[k + 1] == a;
      assert a != bp ==> a in l';
    }
    if i :| 0 <= i < |ns| && ns[i] in size && ns[i] <= u < ns[i] + size[ns[i]] {
      assert ns[i] == if i <= k then nodes[i] else if i == k + 1 then bp else nodes[i - 1];
    }
    if a :| a in l' && a <= u < a + l'[a] {
      assert a in live && live[a] == l'[a];
    }
  }

  lemma MergeSpace(nodes: seq<int>, size: map<int, nat>, live: map<int, nat>, arena: set<int>, i: nat)
    requires Space(nodes, size, live, arena) && Distinct(nodes) && i + 1 < |nodes|
    requires nodes[i] in size && nodes[i + 1] in size && nodes[i] + size[nodes[i]] == nodes[i + 1]
    ensures Space(RemoveNode(nodes, i + 1), size[nodes[i] := size[nodes[i]] + size[nodes[i + 1]]], live, arena)
  {
    var ns, sz := RemoveNode(nodes, i + 1), size[nodes[i] := size[nodes[i]] + size[nodes[i + 1]]];
    forall x | 0 <= x < |ns| ensures ns[x] == if x <= i then nodes[x] else nodes[x + 1] {
    }
    forall u ensures InFree(ns, sz, u) <==> InFree(nodes, size, u) {
      MergeUnit(nodes, size, i, u);
    }
    forall a, x | a in live && 0 <= x < |ns| && ns[x] in sz
      ensures ns[x] != a && (a + live[a] <= ns[x] || ns[x] + sz[ns[x]] <= a)
    {
      assert nodes[i] != a && (a + live[a] <= nodes[i] || nodes[i] + size[nodes[i]] <= a);
      assert nodes[i + 1] != a && (a + live[a] <= nodes[i + 1] || nodes[i + 1] + size[nodes[i + 1]] <= a);
    }
  }

  lemma MergeUnit(nodes: seq<int>, size: map<int, nat>, i: nat, u: int)
    requires Distinct(nodes) && i + 1 < |nodes|
    requires nodes[i] in size && nodes[i + 1] in size && nodes[i] + size[nodes[i]] == nodes[i + 1]
    ensures InFree(RemoveNode(nodes, i + 1), size[nodes[i] := size[nodes[i]] + size[nodes[i + 1]]], u) <==>
      InFree(nodes, size, u)
  {
    var ns, sz := RemoveNode(nodes, i + 1), size[nodes[i] := size[nodes[i]] + size[nodes[i + 1]]];
    if x :| 0 <= x < |nodes| && nodes[x] in size && nodes[x] <= u < nodes[x] + size[nodes[x]] {
      var y := if x <= i then x else x - 1;
      assert ns[y] == if x == i + 1 then nodes[i] else nodes[x];
    }
    if x :| 0 <= x < |ns| && ns[x] in sz && ns[x] <= u < ns[x] + sz[ns[x]] {
      assert ns[x] == if x <= i then nodes[x] else nodes[x + 1];
      if x == i {
        assert nodes[i] <= u < nodes[i] + size[nodes[i]] || nodes[i + 1] <= u < nodes[i + 1] + size[nodes[i + 1]];
      }
    }
  }

  /** free moves the units of bp from the live to the free blocks. */
  lemma LinkedSpace(nodes: seq<int>, next: map<int, int>, size: map<int, nat>, live: map<int, nat>, arena: set<int>,
                    k: nat, bp: int)
    requires Gap(nodes, next, size, k, bp) && Space(nodes, size, live, arena) && bp in live
    ensures Space(Inserted(nodes, size, k, bp, size[bp]), Linked(next, size, nodes[k], bp).1, live - {bp}, arena)
  {
    GapFree(nodes, next, size, k, bp);
    var n2, s2 := LinkedParts(nodes, next, size, k, bp);
    UpperSpace(nodes, size, live, arena, k, bp, n2, s2);
    LowerSpace(n2, s2, live - {bp}, arena, k, nodes[k], bp, Inserted(nodes, size, k, bp, size[bp]),
               Linked(next, size, nodes[k], bp).1);
  }

  lemma LowerSpace(n2: seq<int>, s2: map<int, nat>, live: map<int, nat>, arena: set<int>, k: nat, p: int, bp: int,
                   ns: seq<int>, sz: map<int, nat>)
    requires Space(n2, s2, live, arena) && LowerMerged(n2, s2, k, p, bp, ns, sz)
    ensures Space(ns, sz, live, arena)
  {
    if p + s2[p] == bp {
      MergeSpace(n2, s2, live, arena, k);
    }
  }

  lemma UpperSpace(nodes: seq<int>, size: map<int, nat>, live: map<int, nat>, arena: set<int>, k: nat, bp: int,
                   n2: seq<int>, s2: map<int, nat>)
    requires Space(nodes, size, live, arena) && bp in live && Distinct(nodes)
    requires UpperMerged(nodes, size, k, bp, n2, s2)
    ensures Space(n2, s2, live - {bp}, arena)
  {
    InsertSpace(nodes, size, live, arena, k, bp);
    if k + 1 < |nodes| && bp + size[bp] == nodes[k + 1] {
      InsertedAt(nodes, k, bp);
      MergeSpace(InsertNode(nodes, k, bp), size, live - {bp}, arena, k + 1);
    }
  }

  lemma FreeGap(nodes: seq<int>, next: map<int, int>, size: map<int, nat>, live: map<int, nat>, bp: int)
    requires Listed(nodes, next, size) && LiveOk(nodes, size, live) && bp in live
    ensures Gap(nodes, next, size, Before(nodes, bp), bp)
  {
    var k := Before(nodes, bp);
    NextIsNode(nodes, next, k);
    assert nodes[k] in size && nodes[After(nodes, k)] in size;
    if k + 1 < |nodes| {
      assert nodes[k + 1] in size;
    }
  }

  lemma FreeReady(nodes: seq<int>, next: map<int, int>, size: map<int, nat>, freep: int, brk: int,
                  live: map<int, nat>, arena: set<int>, bp: int)
    requires World(nodes, next, size, freep, brk, live, arena) && bp in live
    ensures freep != NULL && |nodes| > 0 && nodes[0] < bp && bp in size && size[bp] == live[bp]
    ensures var k := Before(nodes, bp);
      && Gap(nodes, next, size, k, bp) && bp !in nodes && nodes[k] in size && nodes[k] in next
      && next[nodes[k]] in next && next[nodes[k]] in size && nodes[k] != bp
  {
    FreeGap(nodes, next, size, live, bp);
    GapFree(nodes, next, size, Before(nodes, bp), bp);
    NextIsNode(nodes, next, Before(nodes, bp));
  }

  /** What free makes of the allocator. */
  lemma FreeWorld(nodes: seq<int>, next: map<int, int>, size: map<int, nat>, freep: int, brk: int,
                  live: map<int, nat>, arena: set<int>, bp: int)
    requires World(nodes, next, size, freep, brk, live, arena) && bp in live
    requires freep != NULL && |nodes| > 0 && nodes[0] < bp && bp in size
    requires var k := Before(nodes, bp);
      && Gap(nodes, next, size, k, bp) && bp !in nodes && nodes[k] in size && nodes[k] in next
      && next[nodes[k]] in next && next[nodes[k]] in size && nodes[k] != bp
    ensures var k := Before(nodes, bp);
      var (nx, sz) := Linked(next, size, nodes[k], bp);
      var ns := Inserted(nodes, size, k, bp, size[bp]);
      && World(ns, nx, sz, nodes[k], brk, live - {bp}, arena) && HasLarge(ns, sz, live[bp])
      && nodes[k] != NULL
  {
    var k := Before(nodes, bp);
    var (nx, sz) := Linked(next, size, nodes[k], bp);
    var ns := Inserted(nodes, size, k, bp, size[bp]);
    FreeDone(nodes, next, size, live, arena, bp, ns, nx, sz);
    WorldMade(ns, nx, sz, nodes[k], brk, live - {bp}, arena);
  }

  /** All of free's work on the list and on the units. */
  lemma FreeDone(nodes: seq<int>, next: map<int, int>, size: map<int, nat>, live: map<int, nat>, arena: set<int>,
                 bp: int, ns: seq<int>, nx: map<int, int>, sz: map<int, nat>)
    requires Listed(nodes, next, size) && Space(nodes, size, live, arena) && bp in live
    requires Gap(nodes, next, size, Before(nodes, bp), bp) && bp !in nodes
    requires var p := nodes[Before(nodes, bp)];
      next[p] in next && next[p] in size && (nx, sz) == Linked(next, size, p, bp)
    requires ns == Inserted(nodes, size, Before(nodes, bp), bp, size[bp])
    ensures Listed(ns, nx, sz) && Space(ns, sz, live - {bp}, arena)
    ensures nodes[Before(nodes, bp)] in ns && nodes[Before(nodes, bp)] >= BASE
    ensures HasLarge(ns, sz, live[bp])
  {
    var k := Before(nodes, bp);
    LinkedListed(nodes, next, size, k, bp);
    LinkedSpace(nodes, next, size, live, arena, k, bp);
    InsertedHas(nodes, next, size, k, bp);
    Sorted(nodes, size);
    assert ns[k] == nodes[k] && nodes[k] >= nodes[0];
  }

  /** Some block of the list is now as large as the one that was freed. */
  lemma InsertedHas(nodes: seq<int>, next: map<int, int>, size: map<int, nat>, k: nat, bp: int)
    requires Gap(nodes, next, size, k, bp)
    ensures var ns, sz := Inserted(nodes, size, k, bp, size[bp]), Linked(next, size, nodes[k], bp).1;
      HasLarge(ns, sz, size[bp])
  {
    var ns, sz := Inserted(nodes, size, k, bp, size[bp]), Linked(next, size, nodes[k], bp).1;
    if nodes[k] + size[nodes[k]] == bp {
      assert ns[k] == nodes[k];
    } else {
      assert ns[k + 1] == bp;
    }
  }

  // ---- the units during malloc --------------------------------------------

  /** What the arena holds lies below a block fresh from sbrk. */
  lemma BelowNew(nodes: seq<int>, next: map<int, int>, size: map<int, nat>, live: map<int, nat>, arena: set<int>,
                 hp: int)
    requires Listed(nodes, next, size) && Space(nodes, size, live, arena) && hp > BASE
    requires forall u :: u in arena ==> u < hp
    ensures forall i :: 0 <= i < |nodes| ==> nodes[i] + size[nodes[i]] <= hp && nodes[i] < hp
    ensures forall a :: a in live ==> a + live[a] <= hp && a < hp
  {
    forall i | 0 <= i < |nodes| ensures nodes[i] + size[nodes[i]] <= hp && nodes[i] < hp {
      if i > 0 {
        assert InFree(nodes, size, nodes[i] + size[nodes[i]] - 1);
        assert nodes[i] + size[nodes[i]] - 1 in arena;
      }
    }
    forall a | a in live ensures a + live[a] <= hp && a < hp {
      assert InLive(live, a + live[a] - 1);
      assert a + live[a] - 1 in arena;
    }
  }

  /** A block fresh from sbrk counts as live until it is freed. */
  lemma GrowSpace(nodes: seq<int>, next: map<int, int>, size: map<int, nat>, live: map<int, nat>, arena: set<int>,
                  hp: int, nu: nat)
    requires Listed(nodes, next, size) && Space(nodes, size, live, arena) && nu > 0 && hp > BASE
    requires forall u :: u in arena ==> u < hp
    ensures hp !in live && hp !in nodes && Listed(nodes, next, size[hp := nu])
    ensures Space(nodes, size[hp := nu], live[hp := nu], arena + Range(hp, nu))
  {
    var sz, lv := size[hp := nu], live[hp := nu];
    BelowNew(nodes, next, size, live, arena, hp);
    GrowLive(nodes, size, live, hp, nu);
    forall u ensures u in arena + Range(hp, nu) <==> InFree(nodes, sz, u) || InLive(lv, u) {
      GrowUnit(nodes, size, live, hp, nu, u);
    }
    SizeElsewhere(nodes, next, size, hp, nu);
  }

  lemma SizeElsewhere(nodes: seq<int>, next: map<int, int>, size: map<int, nat>, hp: int, nu: nat)
    requires Listed(nodes, next, size) && forall i :: 0 <= i < |nodes| ==> nodes[i] != hp
    ensures Listed(nodes, next, size[hp := nu])
  {
    var sz := size[hp := nu];
    forall i ensures EndsBefore(nodes, sz, i) {
      assert EndsBefore(nodes, size, i);
    }
  }

  lemma GrowLive(nodes: seq<int>, size: map<int, nat>, live: map<int, nat>, hp: int, nu: nat)
    requires LiveOk(nodes, size, live) && nu > 0 && hp > BASE
    requires forall i :: 0 <= i < |nodes| ==> nodes[i] in size && nodes[i] + size[nodes[i]] <= hp && nodes[i] < hp
    requires forall a :: a in live ==> a + live[a] <= hp && a < hp
    ensures LiveOk(nodes, size[hp := nu], live[hp := nu])
  {
  }

  lemma GrowUnit(nodes: seq<int>, size: map<int, nat>, live: map<int, nat>, hp: int, nu: nat, u: int)
    requires hp !in live && forall i :: 0 <= i < |nodes| ==> nodes[i] != hp
    ensures InFree(nodes, size[hp := nu], u) <==> InFree(nodes, size, u)
    ensures InLive(live[hp := nu], u) <==> InLive(live, u) || hp <= u < hp + nu
  {
    var lv := live[hp := nu];
    if a :| a in live && a <= u < a + live[a] {
      assert a in lv && lv[a] == live[a];
    }
    if hp <= u < hp + nu {
      assert hp in lv && lv[hp] == nu;
    }
  }

  lemma RemoveApart(nodes: seq<int>, size: map<int, nat>, i: nat)
    requires Apart(nodes, size) && i + 1 < |nodes|
    ensures Apart(RemoveNode(nodes, i + 1), size)
  {
    Sorted(nodes, size);
    var ns := RemoveNode(nodes, i + 1);
    forall x | 0 <= x < |ns| ensures ns[x] == if x <= i then nodes[x] else nodes[x + 1] {
    }
    forall x ensures EndsBefore(ns, size, x) {
      if x == i && i + 2 < |nodes| { SortedTo(nodes, size, i, i + 2); }
      assert EndsBefore(nodes, size, x) && EndsBefore(nodes, size, x + 1);
    }
  }

  /** malloc of a whole block: it leaves the list and becomes live. */
  lemma TakeExact(nodes: seq<int>, next: map<int, int>, size: map<int, nat>, live: map<int, nat>, arena: set<int>,
                  j: nat)
    requires Listed(nodes, next, size) && Space(nodes, size, live, arena) && j + 1 < |nodes|
    ensures var p := nodes[j + 1];
      && p !in live
      && Listed(RemoveNode(nodes, j + 1), next[nodes[j] := next[p]], size)
      && Space(RemoveNode(nodes, j + 1), size, live[p := size[p]], arena)
  {
    Sorted(nodes, size);
    RemoveRing(nodes, next, j);
    RemoveApart(nodes, size, j);
    var p, ns := nodes[j + 1], RemoveNode(nodes, j + 1);
    var lv := live[p := size[p]];
    assert nodes[j + 1] in size;
    TakeLive(nodes, size, live, j);
    forall u ensures InFree(ns, size, u) || InLive(lv, u) <==> InFree(nodes, size, u) || InLive(live, u) {
      TakeUnit(nodes, size, live, j, u);
    }
    assert ns[0] == BASE;
    forall x | 0 < x < |ns| ensures size[ns[x]] > 0 {
      assert ns[x] == if x <= j then nodes[x] else nodes[x + 1];
    }
  }

  lemma TakeLive(nodes: seq<int>, size: map<int, nat>, live: map<int, nat>, j: nat)
    requires Apart(nodes, size) && LiveOk(nodes, size, live)
    requires j + 1 < |nodes| && nodes[j + 1] > BASE && size[nodes[j + 1]] > 0
    ensures LiveOk(RemoveNode(nodes, j + 1), size, live[nodes[j + 1] := size[nodes[j + 1]]])
  {
    Sorted(nodes, size);
    var p, ns := nodes[j + 1], RemoveNode(nodes, j + 1);
    forall x | 0 <= x < |ns| ensures ns[x] == if x <= j then nodes[x] else nodes[x + 1] {
    }
    forall x | 0 <= x < |ns| ensures ns[x] in size && ns[x] != p && (p + size[p] <= ns[x] || ns[x] + size[ns[x]] <= p) {
      if x <= j { assert nodes[x] + size[nodes[x]] < p; } else { assert p + size[p] < nodes[x + 1]; }
    }
  }

  lemma TakeUnit(nodes: seq<int>, size: map<int, nat>, live: map<int, nat>, j: nat, u: int)
    requires j + 1 < |nodes| && nodes[j + 1] in size && nodes[j + 1] !in live
    ensures InFree(RemoveNode(nodes, j + 1), size, u) || InLive(live[nodes[j + 1] := size[nodes[j + 1]]], u)
            <==> InFree(nodes, size, u) || InLive(live, u)
  {
    var p, ns := nodes[j + 1], RemoveNode(nodes, j + 1);
    var lv := live[p := size[p]];
    if i :| 0 <= i < |nodes| && nodes[i] in size && nodes[i] <= u < nodes[i] + size[nodes[i]] {
      if i == j + 1 { assert p in lv; } else { assert ns[if i <= j then i else i - 1] == nodes[i]; }
    }
    if a :| a in live && a <= u < a + live[a] {
      assert a in lv && lv[a] == live[a];
    }
    if i :| 0 <= i < |ns| && ns[i] in size && ns[i] <= u < ns[i] + size[ns[i]] {
      assert ns[i] == if i <= j then nodes[i] else nodes[i + 1];
    }
    if a :| a in lv && a <= u < a + lv[a] {
      if a == p { assert nodes[j + 1] == a; } else { assert a in live; }
    }
  }

  /** malloc of the tail end of a larger block: the list keeps the front. */
  lemma TakeTail(nodes: seq<int>, next: map<int, int>, size: map<int, nat>, live: map<int, nat>, arena: set<int>,
                 i: nat, n: nat, q: int, sz: map<int, nat>)
    requires Listed(nodes, next, size) && Space(nodes, size, live, arena) && 0 < i < |nodes| && 0 < n < size[nodes[i]]
    requires q == nodes[i] + size[nodes[i]] - n && sz == size[nodes[i] := size[nodes[i]] - n][q := n]
    ensures q !in live && Listed(nodes, next, sz) && Space(nodes, sz, live[q := n], arena)
  {
    TailFresh(nodes, size, live, i, n, q);
    TailListed(nodes, next, size, i, n, q, sz);
    TailLive(nodes, size, live, i, n);
    TailCovers(nodes, size, live, arena, i, n);
  }

  /** Where the tail begins there is neither a node nor a live block. */
  lemma TailFresh(nodes: seq<int>, size: map<int, nat>, live: map<int, nat>, i: nat, n: nat, q: int)
    requires Apart(nodes, size) && LiveOk(nodes, size, live) && i < |nodes| && 0 < n < size[nodes[i]]
    requires q == nodes[i] + size[nodes[i]] - n
    ensures q !in live && Distinct(nodes) && forall x :: 0 <= x < |nodes| ==> nodes[x] != q
    ensures forall a :: a in live ==> a != q && (a + live[a] <= q || q + n <= a)
  {
    Sorted(nodes, size);
    forall x | 0 <= x < |nodes| ensures nodes[x] != q {
      if x < i { assert nodes[x] < nodes[i]; } else if x > i { assert nodes[i] + size[nodes[i]] < nodes[x]; }
    }
    forall a | a in live ensures a != q && (a + live[a] <= q || q + n <= a) {
      assert nodes[i] != a && (a + live[a] <= nodes[i] || nodes[i] + size[nodes[i]] <= a);
    }
  }

  lemma TailListed(nodes: seq<int>, next: map<int, int>, size: map<int, nat>, i: nat, n: nat, q: int,
                   sz: map<int, nat>)
    requires Listed(nodes, next, size) && Distinct(nodes) && 0 < i < |nodes| && 0 < n < size[nodes[i]]
    requires sz == size[nodes[i] := size[nodes[i]] - n][q := n] && forall x :: 0 <= x < |nodes| ==> nodes[x] != q
    ensures Listed(nodes, next, sz)
  {
    forall x ensures EndsBefore(nodes, sz, x) {
      assert EndsBefore(nodes, size, x);
    }
  }

  lemma TailCovers(nodes: seq<int>, size: map<int, nat>, live: map<int, nat>, arena: set<int>, i: nat, n: nat)
    requires Covers(nodes, size, live, arena) && Distinct(nodes)
    requires i < |nodes| && nodes[i] in size && 0 < n < size[nodes[i]]
    requires var q := nodes[i] + size[nodes[i]] - n; q !in live && forall x :: 0 <= x < |nodes| ==> nodes[x] != q
    ensures var p, q := nodes[i], nodes[i] + size[nodes[i]] - n;
      Covers(nodes, size[p := size[p] - n][q := n], live[q := n], arena)
  {
    var p, q := nodes[i], nodes[i] + size[nodes[i]] - n;
    forall u ensures u in arena <==> InFree(nodes, size[p := size[p] - n][q := n], u) || InLive(live[q := n], u) {
      TailUnit(nodes, size, live, i, n, u);
    }
  }

  lemma TailLive(nodes: seq<int>, size: map<int, nat>, live: map<int, nat>, i: nat, n: nat)
    requires Apart(nodes, size) && LiveOk(nodes, size, live)
    requires 0 < i < |nodes| && 0 < n < size[nodes[i]] && nodes[0] == BASE
    requires var q := nodes[i] + size[nodes[i]] - n;
      q !in live && (forall x :: 0 <= x < |nodes| ==> nodes[x] != q)
      && forall a :: a in live ==> a != q && (a + live[a] <= q || q + n <= a)
    ensures var p, q := nodes[i], nodes[i] + size[nodes[i]] - n;
      LiveOk(nodes, size[p := size[p] - n][q := n], live[q := n])
  {
    Sorted(nodes, size);
    var p, q := nodes[i], nodes[i] + size[nodes[i]] - n;
    var sz, lv := size[p := size[p] - n][q := n], live[q := n];
    assert nodes[0] < nodes[i];
    forall a, x | a in lv && 0 <= x < |nodes| && nodes[x] in sz
      ensures nodes[x] != a && (a + lv[a] <= nodes[x] || nodes[x] + sz[nodes[x]] <= a)
    {
      if a != q {
        assert nodes[x] != a && (a + live[a] <= nodes[x] || nodes[x] + size[nodes[x]] <= a);
      } else if x < i {
        assert nodes[x] + size[nodes[x]] < nodes[i];
      } else if x > i {
        assert nodes[i] + size[nodes[i]] < nodes[x];
      }
    }
  }

  lemma TailUnit(nodes: seq<int>, size: map<int, nat>, live: map<int, nat>, i: nat, n: nat, u: int)
    requires Distinct(nodes) && i < |nodes| && nodes[i] in size && 0 < n < size[nodes[i]]
    requires var q := nodes[i] + size[nodes[i]] - n; q !in live && forall x :: 0 <= x < |nodes| ==> nodes[x] != q
    ensures var p, q := nodes[i], nodes[i] + size[nodes[i]] - n;
      InFree(nodes, size[p := size[p] - n][q := n], u) || InLive(live[q := n], u) <==>
        InFree(nodes, size, u) || InLive(live, u)
  {
    var p, q := nodes[i], nodes[i] + size[nodes[i]] - n;
    var sz, lv := size[p := size[p] - n][q := n], live[q := n];
    if x :| 0 <= x < |nodes| && nodes[x] in size && nodes[x] <= u < nodes[x] + size[nodes[x]] {
      if x == i && u >= q {
        assert q in lv && lv[q] == n;
      } else {
        assert nodes[x] in sz && nodes[x] <= u < nodes[x] + sz[nodes[x]];
      }
    }
    if a :| a in live && a <= u < a + live[a] {
      assert a in lv && lv[a] == live[a];
    }
    if x :| 0 <= x < |nodes| && nodes[x] in sz && nodes[x] <= u < nodes[x] + sz[nodes[x]] {
      assert nodes[x] in size && nodes[x] <= u < nodes[x] + size[nodes[x]];
    }
    if a :| a in lv && a <= u < a + lv[a] {
      if a == q { assert nodes[i] <= u < nodes[i] + size[nodes[i]]; } else { assert a in live; }
    }
  }

  ghost function IndexOf(nodes: seq<int>, x: int): (i: nat)
    requires x in nodes
    ensures i < |nodes| && nodes[i] == x
  {
    var i :| 0 <= i < |nodes| && nodes[i] == x; i
  }

  /** free's two tests at node j say whether j is the node to insert behind. */
  lemma Around(nodes: seq<int>, next: map<int, int>, size: map<int, nat>, j: nat, k: nat, bp: int)
    requires Listed(nodes, next, size) && j < |nodes| && nodes[0] < bp && k == Before(nodes, bp)
    requires forall i :: 0 <= i < |nodes| ==> nodes[i] != bp
    ensures var p := nodes[j];
      (bp > p && bp < next[p]) || (p >= next[p] && (bp > p || bp < next[p])) <==> j == k
  {
    Sorted(nodes, size);
    var p := nodes[j];
    assert LeadsOn(nodes, next, j);
    if j < k {
      assert next[p] == nodes[j + 1] && nodes[j + 1] <= nodes[k] && p < next[p];
    } else if j == |nodes| - 1 {
      assert next[p] == BASE <= p;
    } else {
      assert next[p] == nodes[j + 1] && nodes[j + 1] >= bp && p < next[p];
    }
  }

  lemma {:induction false} SortedTo(nodes: seq<int>, size: map<int, nat>, i: nat, j: nat)
    requires Apart(nodes, size) && i < j < |nodes|
    ensures nodes[i] + size[nodes[i]] < nodes[j]
    decreases j - i
  {
    assert EndsBefore(nodes, size, i);
    if i + 1 < j {
      SortedTo(nodes, size, i + 1, j);
    }
  }

  lemma Sorted(nodes: seq<int>, size: map<int, nat>)
    requires Apart(nodes, size)
    ensures forall i, j :: 0 <= i < j < |nodes| ==> nodes[i] + size[nodes[i]] < nodes[j]
    ensures forall i, j :: 0 <= i < j < |nodes| ==> nodes[i] < nodes[j]
    ensures Distinct(nodes)
  {
    forall i, j | 0 <= i < j < |nodes| ensures nodes[i] + size[nodes[i]] < nodes[j] {
      SortedTo(nodes, size, i, j);
    }
  }
}
