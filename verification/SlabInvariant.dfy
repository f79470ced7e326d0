/** What every operation of the slab allocator keeps. */
module SlabInvariant {
  import opened Machine
  import opened SeqLists
  import opened PagePool
  import opened SlabState

  // ---------- Address arithmetic ----------

  /** The loop of vm_cache_grow threads one block less than the counter says when the stride divides the room. */
  lemma CountersAgree(size: nat)
    requires Stride(size) <= PAGE - SLAB
    ensures Capacity(size) == Threaded(size) <==> (PAGE - SLAB) % Stride(size) != 0
    ensures Capacity(size) > 0
  {
    var b := Stride(size);
    var room := PAGE - SLAB;
    assert room == Capacity(size) * b + room % b;
    if room % b == 0 {
      assert room - 1 == (Capacity(size) - 1) * b + (b - 1);
      DivUnique(room - 1, b, Capacity(size) - 1, b - 1);
    } else {
      DivUnique(room - 1, b, Capacity(size), room % b - 1);
    }
    DivAtLeastOne(room, b);
  }

  /** The object sizes that work: from 4066 on no page holds an object, and 2027 has one block too few. */
  lemma ExactSizes(size: nat)
    ensures Exact(size) <==> size < 4066 && size != 2027
    ensures size >= 4066 <==> Threaded(size) == 0
  {
    if size <= 4066 {
      CountersAgree(size);
      DivisorsOf4078(Stride(size));
    }
    if size < 4066 {
      DivAtLeastOne(PAGE - SLAB - 1, Stride(size));
    } else {
      DivUnique(PAGE - SLAB - 1, Stride(size), 0, PAGE - SLAB - 1);
    }
  }

  lemma DivUnique(n: nat, b: nat, q: int, r: int)
    requires b > 0 && n == q * b + r && 0 <= r < b
    ensures n / b == q
  {
    var k := n / b;
    assert n == k * b + n % b;
    if k < q {
      MulMono(k + 1, q, b);
    } else if q < k {
      MulMono(q + 1, k, b);
    }
  }

  lemma MulMono(i: int, j: int, b: nat)
    requires i <= j
    ensures i * b <= j * b
  {
  }

  lemma DivAtLeastOne(n: nat, b: nat)
    requires 0 < b <= n
    ensures n / b >= 1
  {
  }

  /** 4078 is twice the prime 2039. */
  lemma DivisorsOf4078(b: nat)
    requires 12 <= b <= 4078
    ensures 4078 % b == 0 <==> b == 2039 || b == 4078
  {
  }

  /** A block and its object lie in their page behind the header, so aligning any of their addresses finds it. */
  lemma ChunkInPage(page: int, size: nat, bc: int, x: int)
    requires Aligned(page) && bc in Chunks(page, size) && bc <= x < bc + Stride(size)
    ensures page + SLAB <= bc && bc + Stride(size) < page + PAGE
    ensures PageOf(x) == page
  {
    var i :| 0 <= i < Threaded(size) && bc == Chunk(page, size, i);
    ChunkEnd(size, i);
    PageStart(page, x - page);
  }

  lemma PageStart(page: int, off: int)
    requires Aligned(page) && 0 <= off < PAGE
    ensures PageOf(page + off) == page
  {
    assert page == page / PAGE * PAGE;
    assert (page + off) / PAGE == page / PAGE;
  }

  lemma ChunkEnd(size: nat, i: nat)
    requires i < Threaded(size)
    ensures i * Stride(size) + Stride(size) < PAGE - SLAB
  {
    var b := Stride(size);
    assert (i + 1) * b <= Threaded(size) * b <= PAGE - SLAB - 1;
    assert (i + 1) * b == i * b + b;
  }

  /** Two blocks of a page, with their objects, do not overlap. */
  lemma ChunksApart(page: int, size: nat, i: nat, j: nat)
    requires i < j < Threaded(size)
    ensures Chunk(page, size, i) + Stride(size) <= Chunk(page, size, j)
  {
    assert (i + 1) * Stride(size) <= j * Stride(size);
    assert (i + 1) * Stride(size) == i * Stride(size) + Stride(size);
  }

  lemma ChunksNoDup(page: int, size: nat)
    ensures NoDup(Chunks(page, size))
  {
    forall i, j | 0 <= i < j < Threaded(size)
      ensures Chunks(page, size)[i] != Chunks(page, size)[j]
    {
      ChunksApart(page, size, i, j);
    }
  }

  // ---------- Lists of a cache ----------

  lemma RefileLists(c: Cache, p: int, k0: Kind, k1: Kind)
    requires forall k :: NoDup(c.List(k))
    requires forall k :: p in c.List(k) <==> k == k0
    ensures forall k :: NoDup(c.Refile(p, k0, k1).List(k))
    ensures forall k :: p in c.Refile(p, k0, k1).List(k) <==> k == k1
    ensures forall k, q :: q != p ==> (q in c.Refile(p, k0, k1).List(k) <==> q in c.List(k))
  {
    if k0 != k1 {
      RemoveNoDup(c.List(k0), p);
      var l := Remove(c.List(k0), p);
      forall k
        ensures c.Refile(p, k0, k1).List(k) == if k == k0 then l else if k == k1 then c.List(k1) + [p] else c.List(k)
      {
      }
    }
  }

  // ---------- A slab changes ----------

  ghost predicate SlabChange(m: Mem, p: int, s': Slab) {
    && p in m.slabs && m.slabs[p].cache in m.caches && s'.cache == m.slabs[p].cache
    && s'.count == |s'.bufs| && NoDup(s'.bufs)
    && forall bc :: bc in s'.bufs ==> bc in Chunks(p, m.caches[s'.cache].size)
  }

  lemma RefiledSlabs(m: Mem, p: int, s': Slab, q: int)
    requires Inv(m) && SlabChange(m, p, s') && q in m.slabs
    ensures SlabOk(Refiled(m, p, s'), q)
  {
    assert SlabOk(m, q);
  }

  lemma RefiledCaches(m: Mem, p: int, s': Slab, c: int)
    requires Inv(m) && SlabChange(m, p, s') && c in m.caches
    ensures CacheOk(Refiled(m, p, s'), c)
  {
    var m' := Refiled(m, p, s');
    assert CacheOk(m, c);
    var own := m.slabs[p].cache;
    var cap := Capacity(m.caches[own].size);
    assert CacheOk(m, own);
    var k0, k1 := KindOf(m.slabs[p].count, cap), KindOf(s'.count, cap);
    forall k ensures p in m.caches[own].List(k) <==> k == k0 {
      assert Filed(m, own, k, p) <==> k == k0;
    }
    RefileLists(m.caches[own], p, k0, k1);
    forall k, q
      ensures q in m'.caches[c].List(k) <==> Filed(m', c, k, q)
    {
      assert q in m.caches[c].List(k) <==> Filed(m, c, k, q);
    }
  }

  lemma RefiledOk(m: Mem, p: int, s': Slab)
    requires Inv(m) && SlabChange(m, p, s')
    ensures var m' := Refiled(m, p, s');
      && PoolOk(m')
      && (forall q :: q in m'.slabs ==> SlabOk(m', q))
      && (forall c :: c in m'.caches ==> CacheOk(m', c))
      && m'.caches.Keys == m.caches.Keys && m'.slabs.Keys == m.slabs.Keys
      && forall c :: c in m.caches ==> m'.caches[c].size == m.caches[c].size
  {
    var m' := Refiled(m, p, s');
    assert m'.slabs.Keys == m.slabs.Keys;
    SameSize(m.slabs, m'.slabs);
    forall q | q in m'.slabs ensures SlabOk(m', q) { RefiledSlabs(m, p, s', q); }
    forall c | c in m'.caches ensures CacheOk(m', c) { RefiledCaches(m, p, s', c); }
  }

  lemma SameSize<K, V>(a: map<K, V>, b: map<K, V>)
    requires a.Keys == b.Keys
    ensures |a| == |b|
  {
    assert |a| == |a.Keys| && |b| == |b.Keys|;
  }

  // ---------- Allocation and release ----------

  /** Exactly the object of the first free block of the slab becomes live. */
  lemma TakeKeeps(m: Mem, p: int)
    requires Inv(m) && p in m.slabs && m.slabs[p].bufs != []
    ensures m.slabs[p].cache in m.caches && Inv(Take(m, p))
  {
    assert SlabOk(m, p);
    var s := m.slabs[p];
    RefiledOk(m, p, s.(count := s.count - 1, bufs := s.bufs[1..]));
    forall c, x | Live(m, c, x) ensures Live(Take(m, p), c, x) { TakeLive(m, p, c, x); }
  }

  lemma TakeLive(m: Mem, p: int, c: int, x: int)
    requires Inv(m) && p in m.slabs && m.slabs[p].bufs != []
    ensures m.slabs[p].cache in m.caches
    ensures var o := m.slabs[p].bufs[0] + BUFCTL;
      && PageOf(o - BUFCTL) == p && !Live(m, m.slabs[p].cache, o)
      && (Live(Take(m, p), c, x) <==> Live(m, c, x) || (c == m.slabs[p].cache && x == o))
  {
    assert SlabOk(m, p);
    var s := m.slabs[p];
    ChunkInPage(p, m.caches[s.cache].size, s.bufs[0], s.bufs[0]);
    assert x - BUFCTL in s.bufs <==> x == s.bufs[0] + BUFCTL || x - BUFCTL in s.bufs[1..];
  }

  /** A list without repetitions that lacks one element of another one is shorter. */
  lemma NotAll(s: seq<int>, t: seq<int>, x: int)
    requires NoDup(s) && x in t && x !in s && forall y :: y in s ==> y in t
    ensures |s| < |t|
  {
    SetSize(s + [x]);
    SetSizeMost(t);
    var a, b := set y | y in s + [x], set y | y in t;
    forall y | y in a ensures y in b {}
    SubsetSize(a, b);
  }

  lemma AtMost(s: seq<int>, t: seq<int>)
    requires NoDup(s) && forall y :: y in s ==> y in t
    ensures |s| <= |t|
  {
    SetSize(s);
    SetSizeMost(t);
    var a, b := set y | y in s, set y | y in t;
    SubsetSize(a, b);
  }

  /** The branches of vm_cache_free file the slab of a live object by its new counter. */
  lemma PutFiles(m: Mem, c: int, p: int, bc: int)
    requires Inv(m) && Live(m, c, bc + BUFCTL) && p == PageOf(bc)
    ensures p in m.slabs && m.slabs[p].cache == c && c in m.caches
    ensures var s := m.slabs[p]; Put(m, p, bc) == Refiled(m, p, s.(count := s.count + 1, bufs := s.bufs + [bc]))
  {
    assert SlabOk(m, p) && CacheOk(m, c);
    NotAll(m.slabs[p].bufs, Chunks(p, m.caches[c].size), bc);
  }

  lemma PutLive(m: Mem, c: int, o: int, d: int, x: int)
    requires Inv(m) && Live(m, c, o)
    ensures var p, bc := PageOf(o - BUFCTL), o - BUFCTL;
      p in m.slabs && m.slabs[p].cache in m.caches
      && (Live(Put(m, p, bc), d, x) <==> Live(m, d, x) && !(d == c && x == o))
  {
    var p, bc := PageOf(o - BUFCTL), o - BUFCTL;
    PutFiles(m, c, p, bc);
    hide Inv, Put, Chunks, Capacity;
    var bufs := m.slabs[p].bufs;
    assert x - BUFCTL in bufs + [bc] <==> x == o || x - BUFCTL in bufs;
  }

  /** Exactly the returned object is no longer live. */
  lemma PutKeeps(m: Mem, c: int, o: int)
    requires Inv(m) && Live(m, c, o) && (c == CACHE_CACHE ==> o !in m.caches)
    ensures var p, bc := PageOf(o - BUFCTL), o - BUFCTL;
      && Inv(Put(m, p, bc))
      && forall d, x :: Live(Put(m, p, bc), d, x) <==> Live(m, d, x) && !(d == c && x == o)
  {
    var p, bc := PageOf(o - BUFCTL), o - BUFCTL;
    assert SlabOk(m, p);
    var s := m.slabs[p];
    var s' := s.(count := s.count + 1, bufs := s.bufs + [bc]);
    RefiledOk(m, p, s');
    PutFiles(m, c, p, bc);
    forall d, x ensures Live(Put(m, p, bc), d, x) <==> Live(m, d, x) && !(d == c && x == o) {
      PutLive(m, c, o, d, x);
    }
    hide Put, PoolOk, SlabOk, CacheOk, Chunks;
  }

  // ---------- A new slab ----------

  /** No block of one page is a block of another. */
  lemma PagesApart(p: int, size: nat, q: int, size': nat, bc: int)
    requires Aligned(p) && Aligned(q) && p != q && bc in Chunks(p, size)
    ensures bc !in Chunks(q, size')
  {
    ChunkInPage(p, size, bc, bc);
    if bc in Chunks(q, size') { ChunkInPage(q, size', bc, bc); }
  }

  lemma GrowPool(m: Mem, c: int)
    requires Inv(m) && c in m.caches && |m.pool| > 1
    ensures PoolOk(Grow(m, c))
    ensures m.pool[0] > 0 && m.pool[0] !in m.slabs
    ensures |Grow(m, c).slabs| == |m.slabs| + 1
  {
    hide Chunks, Grow, CacheOk, SlabOk;
    PoolTail(m.pool);
    GrowFields(m, c);
    var m' := Grow(m, c);
    forall p | p in m'.pool ensures Aligned(p) && 0 <= p < HIGHMEM && p !in m'.slabs { assert p in m.pool; }
  }

  lemma GrowFields(m: Mem, c: int)
    requires c in m.caches && |m.pool| > 1 && m.pool[0] !in m.slabs
    ensures var m' := Grow(m, c);
      m'.pool == m.pool[1..] && m'.slabs.Keys == m.slabs.Keys + {m.pool[0]} && |m'.slabs| == |m.slabs| + 1
  {
    hide Chunks;
    var m' := Grow(m, c);
    assert m'.slabs.Keys == m.slabs.Keys + {m.pool[0]};
    assert |m'.slabs| == |m'.slabs.Keys| && |m.slabs| == |m.slabs.Keys|;
  }

  lemma PoolTail(s: seq<int>)
    requires NoDup(s) && |s| > 1 && s[|s| - 1] == 0
    ensures NoDup(s[1..]) && s[1..][|s| - 2] == 0
    ensures s[0] in s && s[0] != 0 && forall p :: p in s[1..] ==> p in s && p != s[0]
  {
  }

  lemma GrowSlabs(m: Mem, c: int, q: int)
    requires Inv(m) && c in m.caches && |m.pool| > 1 && q in Grow(m, c).slabs && Exact(m.caches[c].size)
    ensures SlabOk(Grow(m, c), q)
  {
    var m' := Grow(m, c);
    var p, size := m.pool[0], m.caches[c].size;
    assert p in m.pool;
    GrowPool(m, c);
    if q == p {
      ChunksNoDup(p, size);
      assert CacheOk(m, c);
    } else {
      assert SlabOk(m, q);
      var size' := m.caches[m.slabs[q].cache].size;
      assert m'.caches[m.slabs[q].cache].size == size';
      forall bc | bc in Chunks(q, size')
        ensures bc in m'.base && m'.base[bc] == bc + BUFCTL
      {
        PagesApart(q, size', p, size, bc);
      }
    }
  }

  lemma GrowCaches(m: Mem, c: int, d: int)
    requires Inv(m) && c in m.caches && |m.pool| > 1 && d in m.caches && Exact(m.caches[c].size)
    ensures CacheOk(Grow(m, c), d)
  {
    hide Chunks, PoolOk, Live, CachesOk;
    var m' := Grow(m, c);
    assert CacheOk(m, d);
    GrowPool(m, c);
    var p := m.pool[0];
    forall k
      ensures NoDup(m'.caches[d].List(k))
      ensures forall q :: q in m'.caches[d].List(k) <==> Filed(m', d, k, q)
    {
      var l, l' := m.caches[d].List(k), m'.caches[d].List(k);
      assert l' == if d == c && k == Free then l + [p] else l;
      assert p in l <==> Filed(m, d, k, p);
      forall q ensures q in l' <==> Filed(m', d, k, q) {
        assert q in l <==> Filed(m, d, k, q);
      }
    }
  }

  lemma GrowLive(m: Mem, c: int, d: int, x: int)
    requires Inv(m) && c in m.caches && |m.pool| > 1
    ensures Live(Grow(m, c), d, x) <==> Live(m, d, x)
  {
    GrowPool(m, c);
  }

  lemma GrowKeeps(m: Mem, c: int)
    requires Inv(m) && c in m.caches && |m.pool| > 1 && Exact(m.caches[c].size)
    ensures Inv(Grow(m, c))
  {
    var m' := Grow(m, c);
    GrowPool(m, c);
    forall q | q in m'.slabs ensures SlabOk(m', q) { GrowSlabs(m, c, q); }
    forall d | d in m'.caches ensures CacheOk(m', d) { GrowCaches(m, c, d); }
    forall d | d in m'.caches && d != CACHE_CACHE ensures Live(m', CACHE_CACHE, d) { GrowLive(m, c, CACHE_CACHE, d); }
  }

  // ---------- A free slab goes back to the pool ----------

  /** A slab whose counter is at capacity has no live object. */
  lemma FreeSlabEmpty(m: Mem, c: int, p: int, x: int)
    requires Inv(m) && c in m.caches && p in m.caches[c].free && PageOf(x - BUFCTL) == p
    ensures !Live(m, c, x)
  {
    assert CacheOk(m, c) && p in m.caches[c].List(Free) && Filed(m, c, Free, p) && SlabOk(m, p);
    Pigeonhole(m.slabs[p].bufs, Chunks(p, m.caches[c].size), x - BUFCTL);
  }

  lemma Pigeonhole(s: seq<int>, t: seq<int>, x: int)
    requires NoDup(s) && |s| == |t| && forall y :: y in s ==> y in t
    ensures x in t ==> x in s
  {
    var a, b := set y | y in s, set y | y in t;
    SetSize(s);
    SetSizeMost(t);
    if a < b { SmallerSet(a, b); }
    assert x in b ==> x in a;
  }

  lemma ReleasePool(m: Mem, c: int)
    requires Inv(m) && c in m.caches && m.caches[c].free != []
    ensures var p := m.caches[c].free[0]; p in m.slabs && |m.pool| < STACK_SIZE && Aligned(p) && PoolOk(Release(m, c))
  {
    var p := m.caches[c].free[0];
    assert CacheOk(m, c) && p in m.caches[c].List(Free) && Filed(m, c, Free, p) && SlabOk(m, p);
    assert m.slabs.Keys == Release(m, c).slabs.Keys + {p};
    assert |Release(m, c).slabs| == |Release(m, c).slabs.Keys| && |m.slabs| == |m.slabs.Keys|;
  }

  lemma ReleaseCaches(m: Mem, c: int, d: int)
    requires Inv(m) && c in m.caches && m.caches[c].free != [] && d in m.caches
    ensures CacheOk(Release(m, c), d)
  {
    var m', p := Release(m, c), m.caches[c].free[0];
    assert CacheOk(m, d) && CacheOk(m, c) && p in m.caches[c].List(Free) && Filed(m, c, Free, p);
    forall k
      ensures NoDup(m'.caches[d].List(k))
      ensures forall q :: q in m'.caches[d].List(k) <==> Filed(m', d, k, q)
    {
      var l, l' := m.caches[d].List(k), m'.caches[d].List(k);
      assert d == c && k == Free ==> l == [p] + l';
      assert d != c || k != Free ==> l' == l;
      forall q ensures q in l' <==> Filed(m', d, k, q) {
        assert q in l <==> Filed(m, d, k, q);
      }
    }
  }

  lemma ReleaseLive(m: Mem, c: int, d: int, x: int)
    requires Inv(m) && c in m.caches && m.caches[c].free != []
    ensures Live(Release(m, c), d, x) <==> Live(m, d, x)
  {
    var p := m.caches[c].free[0];
    if PageOf(x - BUFCTL) == p {
      assert CacheOk(m, c) && p in m.caches[c].List(Free) && Filed(m, c, Free, p);
      FreeSlabEmpty(m, c, p, x);
    }
  }

  lemma ReleaseKeeps(m: Mem, c: int)
    requires Inv(m) && c in m.caches && m.caches[c].free != []
    ensures Inv(Release(m, c))
  {
    var m' := Release(m, c);
    ReleasePool(m, c);
    forall q | q in m'.slabs ensures SlabOk(m', q) { assert SlabOk(m, q); }
    forall d | d in m'.caches ensures CacheOk(m', d) { ReleaseCaches(m, c, d); }
    forall d | d in m'.caches && d != CACHE_CACHE ensures Live(m', CACHE_CACHE, d) {
      ReleaseLive(m, c, CACHE_CACHE, d);
    }
  }
}
