/** The whole state an operation of the slab allocator leaves: pages, blocks, and the order of every list. */
module SlabEffects {
  import opened Machine
  import opened SeqLists
  import opened PagePool
  import opened SlabState
  import opened SlabInvariant
  import opened SlabRuns

  /** The slab an allocation is served from: the first partial one, else the first free one, else a new one. */
  function Source(m: Mem, c: int): int
    requires c in m.caches && m.pool != []
  {
    var cache := m.caches[c];
    if cache.partial != [] then cache.partial[0] else if cache.free != [] then cache.free[0] else m.pool[0]
  }

  predicate NeedsPage(m: Mem, c: int)
    requires c in m.caches
  {
    m.caches[c].partial == [] && m.caches[c].free == []
  }

  /** Slab `p` is on list `to` afterwards, at its end if it was not there before; all other slabs stay in order. */
  ghost predicate Filing(before: Cache, after: Cache, p: int, to: Kind) {
    if p in before.List(to) then after == before
    else
      && after.size == before.size
      && forall k :: after.List(k) == Remove(before.List(k), p) + if k == to then [p] else []
  }

  /** All blocks of a new slab but the first, in ascending order. */
  ghost predicate AllButFirst(bufs: seq<int>, p: int, size: nat) {
    |bufs| == Threaded(size) - 1 && forall i :: 0 <= i < |bufs| ==> bufs[i] == p + 18 + (i + 1) * (size + 12)
  }

  /** What is left of the slabs when the first free block of `p` is handed out. */
  ghost predicate BlockTaken(m: Mem, m': Mem, c: int, p: int, o: int) {
    && p in m.slabs && m.slabs[p].bufs != [] && o == m.slabs[p].bufs[0] + 12
    && m'.pool == m.pool && m'.base == m.base
    && m'.slabs == m.slabs[p := Slab(m.slabs[p].count - 1, m.slabs[p].bufs[1..], c)]
  }

  /** What is left when a page of the pool becomes slab `p` and its first block is handed out. */
  ghost predicate PageTaken(m: Mem, m': Mem, c: int, p: int, size: nat, o: int) {
    && |m.pool| > 1 && p == m.pool[0] && m'.pool == m.pool[1..] && o == p + 30
    && p in m'.slabs && m'.slabs == m.slabs[p := m'.slabs[p]]
    && m'.slabs[p].cache == c && m'.slabs[p].count == |m'.slabs[p].bufs| && AllButFirst(m'.slabs[p].bufs, p, size)
    && (forall bc :: bc in m'.base <==> bc in m.base || bc in Chunks(p, size))
    && (forall bc :: bc in m'.base ==> m'.base[bc] == if bc in Chunks(p, size) then bc + 12 else m.base[bc])
  }

  ghost predicate AllocLeaves(m: Mem, m': Mem, c: int, o: int)
    requires c in m.caches && m.pool != []
  {
    var p := Source(m, c);
    && (if NeedsPage(m, c) then PageTaken(m, m', c, p, m.caches[c].size, o) else BlockTaken(m, m', c, p, o))
    && p in m'.slabs && c in m'.caches && m'.cacheList == m.cacheList && m'.caches == m.caches[c := m'.caches[c]]
    && Filing(m.caches[c], m'.caches[c], p, if m'.slabs[p].bufs == [] then Full else Partial)
  }

  // ---------- Allocation ----------

  /** A slab is on the one list its counter says. */
  lemma FiledAt(m: Mem, c: int, p: int)
    requires Inv(m) && p in m.slabs && m.slabs[p].cache == c
    ensures c in m.caches && m.slabs[p].count == |m.slabs[p].bufs| <= Capacity(m.caches[c].size)
    ensures Capacity(m.caches[c].size) == Threaded(m.caches[c].size) > 0
    ensures forall k :: p in m.caches[c].List(k) <==> k == KindOf(m.slabs[p].count, Capacity(m.caches[c].size))
  {
    assert SlabOk(m, p) && CacheOk(m, c);
    AtMost(m.slabs[p].bufs, Chunks(p, m.caches[c].size));
    forall k ensures p in m.caches[c].List(k) <==> Filed(m, c, k, p) {}
    var k := KindOf(m.slabs[p].count, Capacity(m.caches[c].size));
    assert p in m.caches[c].List(k);
  }

  lemma RefileIs(c: Cache, p: int, k0: Kind, k1: Kind)
    requires forall k :: p in c.List(k) <==> k == k0
    ensures Filing(c, c.Refile(p, k0, k1), p, k1)
  {
    if k0 != k1 {
      var c' := c.Refile(p, k0, k1);
      forall k ensures c'.List(k) == Remove(c.List(k), p) + if k == k1 then [p] else [] {
      }
    }
  }

  lemma TakeIs(m: Mem, p: int)
    requires Inv(m) && p in m.slabs && m.slabs[p].bufs != []
    ensures var (c, m') := (m.slabs[p].cache, Take(m, p));
      && c in m.caches && BlockTaken(m, m', c, p, m.slabs[p].bufs[0] + 12)
      && p in m'.slabs && c in m'.caches && m'.cacheList == m.cacheList && m'.caches == m.caches[c := m'.caches[c]]
      && Filing(m.caches[c], m'.caches[c], p, if m'.slabs[p].bufs == [] then Full else Partial)
  {
    var c := m.slabs[p].cache;
    FiledAt(m, c, p);
    var (cap, n) := (Capacity(m.caches[c].size), m.slabs[p].count);
    RefileIs(m.caches[c], p, KindOf(n, cap), KindOf(n - 1, cap));
  }

  lemma {:induction false} RemoveLast(s: seq<int>, x: int)
    requires x !in s
    ensures Remove(s + [x], x) == s && Remove(s, x) == s
  {
    if s != [] {
      RemoveLast(s[1..], x);
      assert (s + [x])[1..] == s[1..] + [x];
    } else {
      assert ([x])[1..] == [];
    }
  }

  /** Filing a slab that was just put on the free list. */
  lemma FiledNew(c: Cache, c': Cache, p: int, to: Kind)
    requires (forall k :: p !in c.List(k)) && to != Free && Filing(c.(free := c.free + [p]), c', p, to)
    ensures Filing(c, c', p, to)
  {
    var g := c.(free := c.free + [p]);
    forall k ensures c'.List(k) == Remove(c.List(k), p) + if k == to then [p] else [] {
      RemoveLast(c.List(k), p);
      assert c'.List(k) == Remove(g.List(k), p) + if k == to then [p] else [];
    }
  }

  /** Page `p` became a slab, wholly free by its counter, with its blocks in ascending order. */
  ghost predicate SlabAdded(m: Mem, g: Mem, c: int, p: int, size: nat) {
    && p !in m.slabs && p in g.slabs && g.slabs == m.slabs[p := g.slabs[p]]
    && g.slabs[p].cache == c && g.slabs[p].count == 4078 / (size + 12) && Ascending(g.slabs[p].bufs, p, size)
    && (forall bc :: bc in g.base <==> bc in m.base || bc in g.slabs[p].bufs)
    && (forall bc :: bc in g.base ==> g.base[bc] == if bc in g.slabs[p].bufs then bc + 12 else m.base[bc])
  }

  ghost predicate Ascending(bufs: seq<int>, p: int, size: nat) {
    |bufs| == 4077 / (size + 12) && forall i :: 0 <= i < |bufs| ==> bufs[i] == p + 18 + i * (size + 12)
  }

  lemma ChunksAscend(p: int, size: nat)
    ensures Ascending(Chunks(p, size), p, size)
  {
    forall i | 0 <= i < Threaded(size) ensures Chunks(p, size)[i] == p + 18 + i * (size + 12) {
      assert Chunks(p, size)[i] == Chunk(p, size, i);
    }
  }

  /** A page of the pool is on no list. */
  lemma PooledUnfiled(m: Mem, c: int, p: int)
    requires Inv(m) && c in m.caches && p in m.pool
    ensures p !in m.slabs && forall k :: p !in m.caches[c].List(k)
  {
    assert CacheOk(m, c);
    forall k ensures p !in m.caches[c].List(k) { assert p in m.caches[c].List(k) <==> Filed(m, c, k, p); }
  }

  /** For every object size, the first page of the pool becomes the last free slab of the cache. */
  lemma GrowEffect(m: Mem, c: int)
    requires Inv(m) && c in m.caches && |m.pool| > 1
    ensures var (g, p, size) := (Grow(m, c), m.pool[0], m.caches[c].size);
      && g.pool == m.pool[1..] && g.cacheList == m.cacheList && SlabAdded(m, g, c, p, size)
      && g.slabs[p].bufs == Chunks(p, size)
      && g.caches == m.caches[c := m.caches[c].(free := m.caches[c].free + [p])]
      && (forall k :: p !in m.caches[c].List(k))
  {
    hide Inv, Chunks, Ascending, Capacity, Grow, Stride;
    PooledUnfiled(m, c, m.pool[0]);
    ChunksAscend(m.pool[0], m.caches[c].size);
    CapacityAt(m.caches[c].size);
    GrowIs(m, c);
    GrowBases(m, c);
  }

  lemma CapacityAt(size: nat)
    ensures Capacity(size) == 4078 / (size + 12)
  {
  }

  lemma GrowIs(m: Mem, c: int)
    requires c in m.caches && |m.pool| > 1
    ensures var (g, p, size) := (Grow(m, c), m.pool[0], m.caches[c].size);
      && g.pool == m.pool[1..] && g.cacheList == m.cacheList && g.slabs == m.slabs[p := Slab(Capacity(size), Chunks(p, size), c)]
      && g.caches == m.caches[c := m.caches[c].(free := m.caches[c].free + [p])]
  {
    hide Chunks, Capacity;
  }

  lemma GrowBases(m: Mem, c: int)
    requires c in m.caches && |m.pool| > 1
    ensures var (g, p, size) := (Grow(m, c), m.pool[0], m.caches[c].size);
      && (forall bc :: bc in g.base <==> bc in m.base || bc in Chunks(p, size))
      && (forall bc :: bc in g.base ==> g.base[bc] == if bc in Chunks(p, size) then bc + 12 else m.base[bc])
  {
    hide Chunks, Capacity;
  }

  lemma ExactCounts(size: nat)
    requires Exact(size)
    ensures 4078 / (size + 12) == 4077 / (size + 12) == Threaded(size) > 0
  {
  }

  lemma NewBlocks(p: int, size: nat)
    requires Threaded(size) > 0
    ensures Chunks(p, size)[0] == p + 18 && AllButFirst(Chunks(p, size)[1..], p, size)
  {
    var s := Chunks(p, size);
    forall i | 0 <= i < |s| - 1 ensures s[1..][i] == p + 18 + (i + 1) * (size + 12) {
      assert s[i + 1] == Chunk(p, size, i + 1);
    }
  }

  lemma AllocateUsed(m: Mem, c: int)
    requires Inv(m) && c in m.caches && CanAllocate(m, c) && Allocate(m, c).1.Some? && !NeedsPage(m, c)
    ensures m.pool != [] && AllocLeaves(m, Allocate(m, c).0, c, Allocate(m, c).1.value)
  {
    hide Inv, Take;
    PoolNotEmpty(m);
    HeadUsable(m, c);
    TakeIs(m, Source(m, c));
    hide BlockTaken, Filing;
  }

  lemma AllocateNew(m: Mem, c: int)
    requires Inv(m) && c in m.caches && CanAllocate(m, c) && Allocate(m, c).1.Some? && NeedsPage(m, c)
    ensures m.pool != [] && AllocLeaves(m, Allocate(m, c).0, c, Allocate(m, c).1.value)
  {
    hide Inv, Take, Chunks, Grow, Exact, Ascending, AllButFirst, Filing, Threaded;
    PoolNotEmpty(m);
    HeadUsable(m, c);
    var (g, p, size) := (Grow(m, c), m.pool[0], m.caches[c].size);
    GrowEffect(m, c);
    ExactCounts(size);
    TakeIs(g, p);
    NewBlocks(p, size);
    var m' := Take(g, p);
    TakenNew(m, g, m', c, p, size, Chunks(p, size));
    FiledNew(m.caches[c], m'.caches[c], p, if m'.slabs[p].bufs == [] then Full else Partial);
  }

  lemma TakenNew(m: Mem, g: Mem, m': Mem, c: int, p: int, size: nat, bufs: seq<int>)
    requires |m.pool| > 1 && p == m.pool[0] && g.pool == m.pool[1..] && SlabAdded(m, g, c, p, size)
    requires bufs == g.slabs[p].bufs == Chunks(p, size) && bufs != [] && g.slabs[p].count == |bufs|
    requires bufs[0] == p + 18 && AllButFirst(bufs[1..], p, size) && BlockTaken(g, m', c, p, bufs[0] + 12)
    ensures PageTaken(m, m', c, p, size, bufs[0] + 12)
  {
    hide Chunks, AllButFirst, Ascending;
  }

  /** An allocation takes the first free block of that slab, and a page only if no slab has a free block. */
  lemma AllocateEffect(m: Mem, c: int)
    requires Inv(m) && c in m.caches && CanAllocate(m, c)
    ensures m.pool != []
    ensures var (m', o) := Allocate(m, c);
      if o.Some? then AllocLeaves(m, m', c, o.value) else m' == m && NeedsPage(m, c) && |m.pool| == 1
  {
    hide Inv, AllocLeaves, Take;
    PoolNotEmpty(m);
    if Allocate(m, c).1.Some? {
      if NeedsPage(m, c) { AllocateNew(m, c); } else { AllocateUsed(m, c); }
    }
  }

  // ---------- The other operations ----------

  /**
    A buffer that comes back to slab `p`: its block goes behind the free blocks, or cuts them
    off behind itself if it is one of them, and no page moves.
   */
  ghost predicate FreeLeaves(m: Mem, m': Mem, c: int, o: int) {
    var p := PageOf(o - 12);
    && p in m.slabs && c in m.caches && p in m'.slabs && c in m'.caches
    && m'.pool == m.pool && m'.base == m.base && m'.cacheList == m.cacheList
    && var bufs := m.slabs[p].bufs;
    && m'.slabs == m.slabs[p := Slab(m.slabs[p].count + 1, if o - 12 in bufs then bufs[..IndexOf(bufs, o - 12) + 1] else bufs + [o - 12], c)]
    && m'.caches == m.caches[c := m'.caches[c]]
    && Filing(m.caches[c], m'.caches[c], p, if m'.slabs[p].count >= Threaded(m.caches[c].size) then Free else Partial)
  }

  lemma FreeEffect(m: Mem, c: int, o: int)
    requires Inv(m) && PageOf(o - BUFCTL) in m.slabs && m.slabs[PageOf(o - BUFCTL)].cache in m.caches
    ensures var (m', ok) := GiveBack(m, c, o);
      if m.slabs[PageOf(o - BUFCTL)].cache == c then ok && FreeLeaves(m, m', c, o) else !ok && m' == m
  {
    var p := PageOf(o - BUFCTL);
    if m.slabs[p].cache == c {
      FiledAt(m, c, p);
      ReturnedIs(m.caches[c], p, m.slabs[p].count + 1);
    }
  }

  /** The branches of vm_cache_free file the slab by its counter; one that was free already stays where it is. */
  lemma ReturnedIs(c: Cache, p: int, count: int)
    requires Capacity(c.size) == Threaded(c.size) > 0 && 0 < count <= Capacity(c.size) + 1
    requires forall k :: p in c.List(k) <==> k == KindOf(count - 1, Capacity(c.size))
    ensures Filing(c, Returned(c, p, count), p, if count >= Threaded(c.size) then Free else Partial)
  {
    hide Capacity, Threaded;
    var c' := Returned(c, p, count);
    var to := if count >= Capacity(c.size) then Free else Partial;
    if p !in c.List(to) {
      forall k ensures c'.List(k) == Remove(c.List(k), p) + if k == to then [p] else [] {
        assert p in c.List(k) <==> k == KindOf(count - 1, Capacity(c.size));
      }
    }
  }

  /** A new cache has no slab, and its record is an object of the cache of caches. */
  lemma CreateEffect(m: Mem, size: nat)
    requires Inv(m)
    ensures m.pool != [] && CACHE_CACHE in m.caches
    ensures var (m', o) := Create(m, size);
      if o.Some? then
        && o.value !in m.caches && o.value in m'.caches && m'.caches[o.value] == Cache(size, [], [], [])
        && m'.cacheList == m.cacheList + [o.value]
        && AllocLeaves(m, m'.(caches := m'.caches - {o.value}, cacheList := m.cacheList), CACHE_CACHE, o.value)
      else m' == m && NeedsPage(m, CACHE_CACHE) && |m.pool| == 1
  {
    hide Inv, Allocate, Live, AllocLeaves, Pages;
    HasCacheCache(m);
    AllocateEffect(m, CACHE_CACHE);
    CreateKeeps(m, size);
    AllocateKeeps(m, CACHE_CACHE);
    var (g, o) := Allocate(m, CACHE_CACHE);
    if o.Some? {
      var m' := Create(m, size).0;
      assert m'.caches - {o.value} == g.caches;
      assert m'.(caches := m'.caches - {o.value}, cacheList := m.cacheList) == g;
    }
  }

  /** A list of slabs, last one first. */
  function Backwards(s: seq<int>): seq<int> {
    if s == [] then [] else Backwards(s[1..]) + [s[0]]
  }

  lemma {:induction false} ReleaseAllIs(m: Mem, c: int)
    requires c in m.caches
    ensures var g := ReleaseAll(m, c);
      && g.pool == Backwards(m.caches[c].free) + m.pool && g.base == m.base && g.cacheList == m.cacheList
      && g.slabs == m.slabs - (set p | p in m.caches[c].free)
      && g.caches == m.caches[c := m.caches[c].(free := [])]
    decreases |m.caches[c].free|
  {
    var free := m.caches[c].free;
    if free == [] {
      assert m.caches == m.caches[c := m.caches[c].(free := [])];
    } else {
      var r := Release(m, c);
      ReleaseAllIs(r, c);
      assert r.caches[c].free == free[1..];
      assert Backwards(free) + m.pool == Backwards(free[1..]) + ([free[0]] + m.pool);
      assert (set p | p in free) == {free[0]} + (set p | p in free[1..]);
    }
  }

  /** A cache with nothing live goes with its slabs, whose pages are stacked in their order, and its record is freed. */
  lemma DestroyEffect(m: Mem, c: int)
    requires Inv(m) && c in m.caches && c != CACHE_CACHE
    ensures var (m', ok) := Destroy(m, c); var (free, p) := (m.caches[c].free, PageOf(c - 12));
      && (ok <==> m.caches[c].partial == [] && m.caches[c].full == [])
      && (!ok ==> m' == m)
      && (ok ==>
            && m'.pool == Backwards(free) + m.pool && p !in free
            && FreeLeaves(m.(pool := m'.pool, slabs := m.slabs - (set q | q in free), caches := m.caches - {c},
                             cacheList := Remove(m.cacheList, c)), m', CACHE_CACHE, c))
  {
    hide Inv, Live, FreeLeaves, ReleaseAll, Remove;
    if m.caches[c].partial == [] && m.caches[c].full == [] {
      ForgottenKeeps(m, c);
      ReleaseAllIs(m, c);
      var g := Forgotten(ReleaseAll(m, c), c);
      FreeEffect(g, CACHE_CACHE, c);
      assert g.caches == m.caches - {c};
      assert PageOf(c - 12) in g.slabs;
    }
  }
}
