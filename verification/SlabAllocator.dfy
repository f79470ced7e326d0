/** The allocator in place: counters, lists and tables updated field by field, as in kern/vm_slab.c. */
module SlabAllocator {
  import opened Machine
  import opened SeqLists
  import opened PagePool
  import opened SlabState
  import opened SlabInvariant
  import opened SlabRuns

  class Allocator {
    const pool: PagePool
    var slabs: map<int, Slab>
    var base: map<int, int>
    var caches: map<int, Cache>
    var cacheList: seq<int>

    ghost predicate Valid()
      reads this, pool, pool.stack
    {
      pool.top <= pool.stack.Length == STACK_SIZE
    }

    ghost function Abs(): Mem
      reads this, pool, pool.stack
      requires Valid()
    {
      Mem(pool.Contents(), slabs, base, caches, cacheList)
    }

    /** vm_cache_setup, on a pool as its own setup leaves it. */
    constructor (pool: PagePool)
      requires pool.top <= pool.stack.Length == STACK_SIZE
      requires NoDup(pool.Contents()) && pool.Contents() != [] && pool.Contents()[|pool.Contents()| - 1] == 0
      requires forall p :: p in pool.Contents() ==> Aligned(p) && 0 <= p < HIGHMEM
      ensures this.pool == pool && Valid() && Initial(Abs()) && Abs().pool == pool.Contents()
    {
      this.pool := pool;
      slabs, base := map[], map[];
      caches := map[CACHE_CACHE := Cache(CACHE, [], [], [])];
      cacheList := [CACHE_CACHE];
    }

    method SetList(c: int, k: Kind, l: seq<int>)
      requires c in caches
      modifies this`caches
      ensures caches == old(caches)[c := old(caches)[c].With(k, l)]
    {
      caches := caches[c := caches[c].With(k, l)];
    }

    /**
      vm_cache_grow, for every object size. The bound of the loop is computed in 32 bits;
      for a stride of more than a page and a low page it would wrap: see BoundWraps.
     */
    method GrowCache(c: int) returns (ok: bool)
      requires Valid() && c in caches && pool.Contents() != []
      requires |pool.Contents()| > 1 ==>
        Aligned(pool.Contents()[0]) && 0 <= pool.Contents()[0] < HIGHMEM
        && Stride(caches[c].size) <= pool.Contents()[0] + PAGE
      modifies this, pool`top
      ensures Valid()
      ensures ok <==> old(|Abs().pool| > 1)
      ensures Abs() == if ok then Grow(old(Abs()), c) else old(Abs())
    {
      hide Capacity, Threaded, Chunk, Chunks, Growing, Grow;
      ghost var m := Abs();
      var page := pool.Alloc();
      if page == POOL_ERROR {
        return false;
      }
      var size := Stride(caches[c].size);
      ghost var z := caches[c].size;
      slabs := slabs[page := Slab((PAGE - SLAB) / size, [], c)];
      CapacityIs(z);
      SetList(c, Free, caches[c].free + [page]);
      var buf := page + SLAB;
      ghost var i := 0;
      ChunkZero(page, z);
      GrowingFirst(m, c);
      while buf < (page + PAGE - size) % WORD32
        invariant 0 <= i <= Threaded(z) && buf == Chunk(page, z, i)
        invariant Valid() && page in slabs
        invariant Abs() == Growing(m, c, i)
        decreases page + PAGE - buf
      {
        ChunkNext(page, z, i);
        base := base[buf := buf + BUFCTL];
        slabs := slabs[page := slabs[page].(bufs := slabs[page].bufs + [buf])];
        buf := buf + size;
        i := i + 1;
        GrowingNext(m, c, i - 1);
      }
      ChunkLast(page, z, i);
      GrowingDone(m, c);
      ok := true;
    }

    /** vm_cache_alloc, once there is a slab with a free block. */
    method TakeHead(c: int) returns (o: int)
      requires Valid() && Inv(Abs()) && c in caches && Head(caches[c]).Some?
      modifies this
      ensures Valid()
      ensures var m := old(Abs()); var p := Head(m.caches[c]).value;
        && p in m.slabs && m.slabs[p].cache == c && m.slabs[p].bufs != [] && m.slabs[p].bufs[0] in m.base
        && o == m.base[m.slabs[p].bufs[0]]
        && Abs() == Take(m, p)
    {
      hide Inv, Take, Capacity;
      ghost var m := Abs();
      HeadUsable(m, c);
      var fromFree := caches[c].partial == [];
      var p := if fromFree then caches[c].free[0] else caches[c].partial[0];
      TakeBranches(m, c, p);
      var bc := slabs[p].bufs[0];
      slabs := slabs[p := slabs[p].(bufs := slabs[p].bufs[1..])];
      slabs := slabs[p := slabs[p].(count := slabs[p].count - 1)];
      if fromFree {
        SetList(c, Free, Remove(caches[c].free, p));
        if slabs[p].count != 0 {
          SetList(c, Partial, caches[c].partial + [p]);
        } else {
          SetList(c, Full, caches[c].full + [p]);
        }
      } else if slabs[p].count == 0 {
        SetList(c, Partial, Remove(caches[c].partial, p));
        SetList(c, Full, caches[c].full + [p]);
      }
      o := base[bc];
    }

    method Alloc(c: int) returns (o: Option<int>)
      requires Valid() && Inv(Abs()) && c in caches && CanAllocate(Abs(), c)
      modifies this, pool`top
      ensures Valid()
      ensures (Abs(), o) == Allocate(old(Abs()), c)
    {
      hide Inv, Take, Grow;
      ghost var m := Abs();
      PoolHeads(m);
      if caches[c].free == [] && caches[c].partial == [] {
        if |m.pool| > 1 { ExactStride(caches[c].size); }
        var ok := GrowCache(c);
        if !ok {
          return None;
        }
      }
      HeadUsable(m, c);
      var a := TakeHead(c);
      o := Some(a);
    }

    /**
      vm_cache_free, of any buffer in the page of a slab; the counter it compares is the one
      before the increment. It does not look whether the buffer was ever handed out.
     */
    method FreeObject(c: int, buf: int) returns (ok: bool)
      requires Valid() && PageOf(buf - BUFCTL) in slabs && slabs[PageOf(buf - BUFCTL)].cache in caches
      modifies this
      ensures Valid()
      ensures (Abs(), ok) == GiveBack(old(Abs()), c, buf)
    {
      hide Capacity, Linked;
      ghost var m := Abs();
      var bc := buf - BUFCTL;
      var p := bc / PAGE * PAGE;
      assert p == PageOf(bc);
      if slabs[p].cache != c {
        return false;
      }
      slabs := slabs[p := slabs[p].(count := slabs[p].count + 1)];
      slabs := slabs[p := slabs[p].(bufs := Linked(slabs[p].bufs, bc))];
      var all := (PAGE - SLAB) / Stride(caches[c].size);
      CapacityIs(caches[c].size);
      if slabs[p].count - 1 != 0 {
        if slabs[p].count == all {
          SetList(c, Partial, Remove(caches[c].partial, p));
          SetList(c, Free, caches[c].free + [p]);
        }
      } else {
        SetList(c, Full, Remove(caches[c].full, p));
        if slabs[p].count == all {
          SetList(c, Free, caches[c].free + [p]);
        } else {
          SetList(c, Partial, caches[c].partial + [p]);
        }
      }
      ok := true;
      assert slabs == m.slabs[p := m.slabs[p].(count := m.slabs[p].count + 1, bufs := Linked(m.slabs[p].bufs, bc))];
      assert caches == m.caches[c := Returned(m.caches[c], p, m.slabs[p].count + 1)];
      assert base == m.base && cacheList == m.cacheList && Abs().pool == m.pool;
    }

    /** vm_cache_create. */
    method CreateCache(size: nat) returns (o: Option<int>)
      requires Valid() && Inv(Abs())
      modifies this, pool`top
      ensures Valid()
      ensures (Abs(), o) == Create(old(Abs()), size)
    {
      hide Inv, Allocate;
      ghost var m := Abs();
      HasCacheCache(m);
      o := Alloc(CACHE_CACHE);
      if o.None? {
        return;
      }
      caches := caches[o.value := Cache(size, [], [], [])];
      cacheList := cacheList + [o.value];
    }

    /** The loop of vm_cache_destroy. Returning a page never fails: a page that holds a slab leaves room on the stack. */
    method ReleaseSlabs(c: int) returns (ok: bool)
      requires Valid() && Inv(Abs()) && c in caches
      modifies this, pool`top, pool.stack
      ensures Valid() && Inv(Abs())
      ensures ok && Abs() == ReleaseAll(old(Abs()), c)
    {
      hide Inv, Release;
      ghost var m := Abs();
      while caches[c].free != []
        invariant Valid() && Inv(Abs()) && c in caches
        invariant ReleaseAll(Abs(), c) == ReleaseAll(m, c)
        decreases |caches[c].free|
      {
        ghost var g := Abs();
        ReleasePool(g, c);
        ReleaseKeeps(g, c);
        ReleaseIs(g, c);
        var p := caches[c].free[0];
        SetList(c, Free, caches[c].free[1..]);
        ok := pool.Free(p);
        if !ok {
          return;
        }
        slabs := slabs - {p};
        assert Abs() == SlabState.Release(g, c);
      }
      ok := true;
    }

    /** vm_cache_destroy. */
    method DestroyCache(c: int) returns (ok: bool)
      requires Valid() && Inv(Abs()) && c in caches && c != CACHE_CACHE
      modifies this, pool`top, pool.stack
      ensures Valid()
      ensures (Abs(), ok) == Destroy(old(Abs()), c)
    {
      hide Inv, ReleaseAll, Forgotten, GiveBack, Live;
      ghost var m := Abs();
      if caches[c].partial != [] || caches[c].full != [] {
        return false;
      }
      ForgottenKeeps(m, c);
      ok := ReleaseSlabs(c);
      if !ok {
        return;
      }
      caches := caches - {c};
      cacheList := Remove(cacheList, c);
      ForgottenIs(ReleaseAll(m, c), c);
      LiveSlab(Abs(), c);
      ok := FreeObject(CACHE_CACHE, c);
    }
  }

  lemma ReleaseIs(m: Mem, c: int)
    requires c in m.caches && m.caches[c].free != []
    ensures var p := m.caches[c].free[0];
      SlabState.Release(m, c) ==
      m.(pool := [p] + m.pool, slabs := m.slabs - {p}, caches := m.caches[c := m.caches[c].With(Free, m.caches[c].free[1..])])
  {
  }

  lemma ForgottenIs(m: Mem, c: int)
    ensures Forgotten(m, c) == m.(caches := m.caches - {c}, cacheList := Remove(m.cacheList, c))
  {
  }

  /** The branches of vm_cache_alloc file the slab by its new counter. */
  lemma TakeBranches(m: Mem, c: int, p: int)
    requires Inv(m) && c in m.caches && Head(m.caches[c]) == Some(p)
    ensures p in m.slabs && m.slabs[p].cache == c && m.slabs[p].bufs != []
    ensures var cache, s := m.caches[c], m.slabs[p];
      var left := s.count - 1;
      var cache' :=
        if cache.partial == [] then
          if left != 0 then cache.With(Free, Remove(cache.free, p)).With(Partial, cache.partial + [p])
          else cache.With(Free, Remove(cache.free, p)).With(Full, cache.full + [p])
        else if left == 0 then cache.With(Partial, Remove(cache.partial, p)).With(Full, cache.full + [p])
        else cache;
      Take(m, p) == m.(slabs := m.slabs[p := s.(count := left, bufs := s.bufs[1..])], caches := m.caches[c := cache'])
  {
    HeadUsable(m, c);
    assert CacheOk(m, c);
    var k := if m.caches[c].partial == [] then Free else Partial;
    assert p in m.caches[c].List(k) && Filed(m, c, k, p);
    assert SlabOk(m, p);
    AtMost(m.slabs[p].bufs, Chunks(p, m.caches[c].size));
  }

  lemma LiveSlab(m: Mem, o: int)
    requires Inv(m) && exists d :: Live(m, d, o)
    ensures var p := PageOf(o - BUFCTL); p in m.slabs && m.slabs[p].cache in m.caches && Live(m, m.slabs[p].cache, o)
  {
  }

  ghost function Bases(base: map<int, int>, s: seq<int>): map<int, int> {
    base + map bc | bc in s :: bc + BUFCTL
  }

  lemma BasesNext(base: map<int, int>, s: seq<int>, bc: int)
    ensures Bases(base, s + [bc]) == Bases(base, s)[bc := bc + BUFCTL]
    ensures Bases(base, []) == base
  {
  }

  /** The state when `i` blocks of the new page are threaded. */
  ghost function Growing(m: Mem, c: int, i: nat): Mem
    requires c in m.caches && |m.pool| > 1 && i <= Threaded(m.caches[c].size)
  {
    var p, size := m.pool[0], m.caches[c].size;
    m.(pool := m.pool[1..],
       slabs := m.slabs[p := Slab(Capacity(size), Chunks(p, size)[..i], c)],
       base := Bases(m.base, Chunks(p, size)[..i]),
       caches := m.caches[c := m.caches[c].(free := m.caches[c].free + [p])])
  }

  lemma PoolHeads(m: Mem)
    requires Inv(m)
    ensures m.pool != [] && Aligned(m.pool[0]) && 0 <= m.pool[0] < HIGHMEM
  {
    assert m.pool[0] in m.pool;
  }

  lemma ExactStride(size: nat)
    requires Exact(size)
    ensures Stride(size) <= PAGE
  {
    ExactSizes(size);
  }

  /** The loop enters a page that has no room for a block exactly when its bound has wrapped. */
  lemma BoundWraps(page: int, size: nat)
    requires 0 <= page < HIGHMEM && size < 0x10000
    ensures Chunk(page, size, 0) < (page + PAGE - Stride(size)) % WORD32 && Threaded(size) == 0
            <==> Stride(size) > page + PAGE
  {
    ChunkZero(page, size);
    ExactSizes(size);
  }

  lemma CapacityIs(size: nat)
    ensures Capacity(size) == (PAGE - SLAB) / Stride(size)
  {
  }

  lemma ChunkZero(page: int, size: nat)
    ensures Chunk(page, size, 0) == page + SLAB
  {
  }

  /** The guard of the loop, on the number of the block. */
  lemma ChunkGuard(page: int, size: nat, i: nat)
    ensures Chunk(page, size, i) < page + PAGE - Stride(size) <==> i < Threaded(size)
  {
    var b := Stride(size);
    assert (i + 1) * b == i * b + b;
    var n := Threaded(size);
    assert PAGE - SLAB - 1 == n * b + (PAGE - SLAB - 1) % b;
    if i < n {
      MulMono(i + 1, n, b);
    } else {
      MulMono(n + 1, i + 1, b);
      assert (n + 1) * b == n * b + b;
    }
  }

  lemma ChunkNext(page: int, size: nat, i: nat)
    requires Chunk(page, size, i) < page + PAGE - Stride(size)
    ensures i < Threaded(size)
    ensures Chunk(page, size, i) + Stride(size) == Chunk(page, size, i + 1)
    ensures Chunks(page, size)[i] == Chunk(page, size, i)
  {
    ChunkGuard(page, size, i);
    assert (i + 1) * Stride(size) == i * Stride(size) + Stride(size);
  }

  lemma ChunkLast(page: int, size: nat, i: nat)
    requires i <= Threaded(size) && Chunk(page, size, i) >= page + PAGE - Stride(size)
    ensures i == Threaded(size)
  {
    ChunkGuard(page, size, i);
  }

  lemma GrowingNext(m: Mem, c: int, i: nat)
    requires c in m.caches && |m.pool| > 1 && i < Threaded(m.caches[c].size)
    ensures var (g, bc, p) := (Growing(m, c, i), Chunks(m.pool[0], m.caches[c].size)[i], m.pool[0]);
      p in g.slabs &&
      Growing(m, c, i + 1) == g.(base := g.base[bc := bc + BUFCTL],
                                 slabs := g.slabs[p := g.slabs[p].(bufs := g.slabs[p].bufs + [bc])])
  {
    hide Bases, Chunks;
    var s := Chunks(m.pool[0], m.caches[c].size);
    assert s[..i + 1] == s[..i] + [s[i]];
    BasesNext(m.base, s[..i], s[i]);
  }

  lemma GrowingDone(m: Mem, c: int)
    requires c in m.caches && |m.pool| > 1
    ensures Growing(m, c, Threaded(m.caches[c].size)) == Grow(m, c)
  {
    var s := Chunks(m.pool[0], m.caches[c].size);
    assert s[..|s|] == s;
  }

  lemma GrowingFirst(m: Mem, c: int)
    requires c in m.caches && |m.pool| > 1
    ensures var (p, size) := (m.pool[0], m.caches[c].size);
      Growing(m, c, 0) == m.(pool := m.pool[1..], slabs := m.slabs[p := Slab(Capacity(size), [], c)],
                             caches := m.caches[c := m.caches[c].(free := m.caches[c].free + [p])])
  {
    var p, size := m.pool[0], m.caches[c].size;
    assert Chunks(p, size)[..0] == [];
    BasesNext(m.base, [], 0);
  }
}
