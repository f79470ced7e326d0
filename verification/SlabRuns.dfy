/** The operations callers use, and what holds over every sequence of them. */
module SlabRuns {
  import opened Machine
  import opened SeqLists
  import opened PagePool
  import opened SlabState
  import opened SlabInvariant

  /** The cache has a free block, or can get one, or the pool has run out. */
  predicate CanAllocate(m: Mem, c: int)
    requires c in m.caches
  {
    Head(m.caches[c]).Some? || |m.pool| <= 1 || Exact(m.caches[c].size)
  }

  /** A cache with a slab has an exact size. */
  lemma HeadExact(m: Mem, c: int)
    requires Inv(m) && c in m.caches && Head(m.caches[c]).Some?
    ensures Exact(m.caches[c].size)
  {
    assert CacheOk(m, c);
    assert m.caches[c].List(Partial) != [] || m.caches[c].List(Free) != [];
  }

  /** vm_cache_alloc: the next state, and the object unless the pool has run out. */
  ghost function Allocate(m: Mem, c: int): (Mem, Option<int>)
    requires Inv(m) && c in m.caches && CanAllocate(m, c)
  {
    if Head(m.caches[c]).None? && |m.pool| <= 1 then (m, None)
    else
      var g := Refilled(m, c);
      HeadUsable(m, c);
      var p := Head(g.caches[c]).value;
      (Take(g, p), Some(g.base[g.slabs[p].bufs[0]]))
  }

  ghost function Refilled(m: Mem, c: int): Mem
    requires c in m.caches && (Head(m.caches[c]).Some? || |m.pool| > 1)
  {
    if Head(m.caches[c]).Some? then m else Grow(m, c)
  }

  /** The slab the allocation turns to belongs to the cache and has a free block. */
  lemma HeadUsable(m: Mem, c: int)
    requires Inv(m) && c in m.caches && CanAllocate(m, c) && (Head(m.caches[c]).Some? || |m.pool| > 1)
    ensures var g := Refilled(m, c);
      && Inv(g) && c in g.caches && g.caches[c].size == m.caches[c].size && Head(g.caches[c]).Some?
      && var p := Head(g.caches[c]).value;
      && p in g.slabs && g.slabs[p].cache == c && g.slabs[p].bufs != []
      && g.slabs[p].bufs[0] in g.base && g.base[g.slabs[p].bufs[0]] == g.slabs[p].bufs[0] + BUFCTL
  {
    var g := Refilled(m, c);
    if Head(m.caches[c]).None? { GrowKeeps(m, c); } else { HeadExact(m, c); }
    var p := Head(g.caches[c]).value;
    assert CacheOk(g, c);
    assert Filed(g, c, if g.caches[c].partial != [] then Partial else Free, p) by {
      if g.caches[c].partial != [] { assert p in g.caches[c].List(Partial); } else { assert p in g.caches[c].List(Free); }
    }
    FirstBlock(g, p);
  }

  lemma FirstBlock(m: Mem, p: int)
    requires Inv(m) && p in m.slabs && m.slabs[p].count != 0
    ensures var bufs := m.slabs[p].bufs; bufs != [] && bufs[0] in m.base && m.base[bufs[0]] == bufs[0] + BUFCTL
  {
    assert SlabOk(m, p);
    var s := m.slabs[p];
    var bc := s.bufs[0];
    assert bc in s.bufs;
    assert bc in Chunks(p, m.caches[s.cache].size);
  }

  /** vm_cache_free, of any buffer. The source reads the slab header of the page of `o`: there has to be one. */
  ghost function GiveBack(m: Mem, c: int, o: int): (Mem, bool)
    requires PageOf(o - BUFCTL) in m.slabs && m.slabs[PageOf(o - BUFCTL)].cache in m.caches
  {
    var p := PageOf(o - BUFCTL);
    if m.slabs[p].cache != c then (m, false) else (Put(m, p, o - BUFCTL), true)
  }

  ghost function Create(m: Mem, size: nat): (Mem, Option<int>)
    requires Inv(m)
  {
    HasCacheCache(m);
    var (g, o) := Allocate(m, CACHE_CACHE);
    if o.None? then (g, None)
    else (g.(caches := g.caches[o.value := Cache(size, [], [], [])], cacheList := g.cacheList + [o.value]), o)
  }

  ghost function ReleaseAll(m: Mem, c: int): Mem
    requires c in m.caches
    decreases |m.caches[c].free|
  {
    if m.caches[c].free == [] then m else ReleaseAll(Release(m, c), c)
  }

  ghost function Forgotten(m: Mem, c: int): Mem {
    m.(caches := m.caches - {c}, cacheList := Remove(m.cacheList, c))
  }

  /** vm_cache_destroy. Only the page returns could fail half way, and they do not: see DestroyKeeps. */
  ghost function Destroy(m: Mem, c: int): (Mem, bool)
    requires Inv(m) && c in m.caches && c != CACHE_CACHE
  {
    if m.caches[c].partial != [] || m.caches[c].full != [] then (m, false)
    else
      ForgottenKeeps(m, c);
      GiveBack(Forgotten(ReleaseAll(m, c), c), CACHE_CACHE, c)
  }

  // ---------- Each operation ----------

  /** The set of pages that are in the pool or hold a slab. */
  ghost function Pages(m: Mem): set<int> {
    (set p | p in m.pool) + m.slabs.Keys
  }

  /**
    An allocation keeps the invariant and the pages. Its object was not live, is a whole
    object of a page of the cache, and is the only one that becomes live.
   */
  lemma AllocateKeeps(m: Mem, c: int)
    requires Inv(m) && c in m.caches && CanAllocate(m, c)
    ensures var (m', o) := Allocate(m, c);
      && Inv(m') && Pages(m') == Pages(m) && m'.caches.Keys == m.caches.Keys && m'.cacheList == m.cacheList
      && (forall d :: d in m.caches ==> m'.caches[d].size == m.caches[d].size)
      && (o.None? <==> Head(m.caches[c]).None? && |m.pool| == 1)
      && (o.None? ==> m' == m)
      && (o.Some? ==> !Live(m, c, o.value))
      && (o.Some? ==> forall d, x :: Live(m', d, x) <==> Live(m, d, x) || (d == c && x == o.value))
  {
    hide Inv, Live, Pages, Take;
    PoolNotEmpty(m);
    if Head(m.caches[c]).Some? || |m.pool| > 1 {
      HeadUsable(m, c);
      RefilledSame(m, c);
      var g := Refilled(m, c);
      TakeAll(g, Head(g.caches[c]).value);
    }
  }

  lemma PoolNotEmpty(m: Mem)
    requires Inv(m)
    ensures m.pool != []
  {
  }

  lemma TakeAll(m: Mem, p: int)
    requires Inv(m) && p in m.slabs && m.slabs[p].bufs != []
    ensures var (m', c, o) := (Take(m, p), m.slabs[p].cache, m.slabs[p].bufs[0] + BUFCTL);
      && c in m.caches && Inv(m') && Pages(m') == Pages(m) && m'.caches.Keys == m.caches.Keys && m'.cacheList == m.cacheList
      && (forall d :: d in m.caches ==> m'.caches[d].size == m.caches[d].size)
      && !Live(m, c, o)
      && forall d, x :: Live(m', d, x) <==> Live(m, d, x) || (d == c && x == o)
  {
    TakeKeeps(m, p);
    var (m', c, o) := (Take(m, p), m.slabs[p].cache, m.slabs[p].bufs[0] + BUFCTL);
    TakeLive(m, p, c, o);
    assert m'.slabs.Keys == m.slabs.Keys;
    forall d, x
      ensures Live(m', d, x) <==> Live(m, d, x) || (d == c && x == o)
    {
      TakeLive(m, p, d, x);
    }
  }

  lemma RefilledSame(m: Mem, c: int)
    requires Inv(m) && c in m.caches && (Head(m.caches[c]).Some? || |m.pool| > 1)
    ensures var g := Refilled(m, c);
      && Pages(g) == Pages(m) && g.caches.Keys == m.caches.Keys && g.cacheList == m.cacheList
      && (forall d :: d in m.caches ==> g.caches[d].size == m.caches[d].size)
      && forall d, x :: Live(g, d, x) <==> Live(m, d, x)
  {
    hide Inv, Live, Grow, Pages, Chunks;
    if Head(m.caches[c]).None? {
      forall d, x ensures Live(Grow(m, c), d, x) <==> Live(m, d, x) { GrowLive(m, c, d, x); }
      GrowSame(m, c);
    }
  }

  lemma GrowSame(m: Mem, c: int)
    requires c in m.caches && |m.pool| > 1
    ensures Pages(Grow(m, c)) == Pages(m) && Grow(m, c).caches.Keys == m.caches.Keys && Grow(m, c).cacheList == m.cacheList
    ensures forall d :: d in m.caches ==> Grow(m, c).caches[d].size == m.caches[d].size
  {
    hide Chunks;
    assert m.pool == [m.pool[0]] + m.pool[1..];
  }

  /** A live object is accepted by its own cache and by no other, and stops being live. */
  lemma GiveBackKeeps(m: Mem, c: int, d: int, o: int)
    requires Inv(m) && Live(m, c, o) && (c == CACHE_CACHE ==> o !in m.caches)
    ensures PageOf(o - BUFCTL) in m.slabs && m.slabs[PageOf(o - BUFCTL)].cache == c && c in m.caches
    ensures var (m', ok) := GiveBack(m, d, o);
      && Inv(m') && Pages(m') == Pages(m) && m'.caches.Keys == m.caches.Keys && m'.cacheList == m.cacheList
      && (forall e :: e in m.caches ==> m'.caches[e].size == m.caches[e].size)
      && (ok <==> d == c)
      && (!ok ==> m' == m)
      && (ok ==> forall e, x :: Live(m', e, x) <==> Live(m, e, x) && !(e == c && x == o))
  {
    PutKeeps(m, c, o);
    assert Put(m, PageOf(o - BUFCTL), o - BUFCTL).slabs.Keys == m.slabs.Keys;
  }

  /**
    The source takes any buffer of a slab back through its own cache; the invariant survives
    exactly for one that is held.
   */
  lemma FreeExact(m: Mem, c: int, o: int)
    requires Inv(m) && PageOf(o - BUFCTL) in m.slabs && m.slabs[PageOf(o - BUFCTL)].cache in m.caches
    ensures var (m', ok) := GiveBack(m, c, o);
      && (ok <==> m.slabs[PageOf(o - BUFCTL)].cache == c)
      && (!ok ==> m' == m)
      && (ok ==> (Inv(m') <==> Live(m, c, o) && (c == CACHE_CACHE ==> o !in m.caches)))
  {
    var (p, bc) := (PageOf(o - BUFCTL), o - BUFCTL);
    if m.slabs[p].cache == c {
      if !Live(m, c, o) {
        DeadBreaks(m, p, bc);
      } else if c == CACHE_CACHE && o in m.caches {
        PutFiles(m, c, p, bc);
        assert !Live(Put(m, p, bc), CACHE_CACHE, o) && o in Put(m, p, bc).caches;
        InKernelImage(m, p, o);
      } else {
        PutKeeps(m, c, o);
      }
    }
  }

  /** A buffer that is free already makes the counter too great; any other one that was not handed out is no object. */
  lemma DeadBreaks(m: Mem, p: int, bc: int)
    requires Inv(m) && p in m.slabs && m.slabs[p].cache in m.caches && p == PageOf(bc)
    requires !Live(m, m.slabs[p].cache, bc + BUFCTL)
    ensures !Inv(Put(m, p, bc))
  {
    var (m', bufs) := (Put(m, p, bc), m.slabs[p].bufs);
    assert SlabOk(m, p);
    if bc !in bufs {
      assert bc in m'.slabs[p].bufs && m'.caches[m.slabs[p].cache].size == m.caches[m.slabs[p].cache].size;
    }
    assert !SlabOk(m', p);
  }

  lemma InKernelImage(m: Mem, p: int, o: int)
    requires Inv(m) && p in m.slabs && p == PageOf(o - BUFCTL)
    ensures o != CACHE_CACHE
  {
    assert SlabOk(m, p);
  }

  /** A new cache is a live object of the cache of caches, with nothing live of its own. */
  lemma CreateKeeps(m: Mem, size: nat)
    requires Inv(m)
    ensures var (m', o) := Create(m, size);
      && Inv(m') && Pages(m') == Pages(m)
      && (o.None? ==> m' == m)
      && (o.Some? ==>
            && o.value !in m.caches && m'.caches.Keys == m.caches.Keys + {o.value} && m'.caches[o.value].size == size
            && (forall d :: d in m.caches ==> m'.caches[d].size == m.caches[d].size)
            && m'.cacheList == m.cacheList + [o.value]
            && forall d, x :: Live(m', d, x) <==> Live(m, d, x) || (d == CACHE_CACHE && x == o.value))
  {
    hide Inv, Allocate, Live, Pages, Exact;
    HasCacheCache(m);
    var (g, o) := Allocate(m, CACHE_CACHE);
    AllocateKeeps(m, CACHE_CACHE);
    if o.Some? {
      NotCacheCache(g, o.value);
      DeadIsNoCache(m, o.value);
      NewCacheKeeps(g, o.value, size);
    }
  }

  lemma HasCacheCache(m: Mem)
    requires Inv(m)
    ensures CACHE_CACHE in m.caches && Exact(m.caches[CACHE_CACHE].size)
  {
    ExactSizes(CACHE);
  }

  lemma NotCacheCache(m: Mem, o: int)
    requires Inv(m) && Live(m, CACHE_CACHE, o)
    ensures o != CACHE_CACHE
  {
    var p := PageOf(o - BUFCTL);
    assert SlabOk(m, p);
    ChunkInPage(p, m.caches[CACHE_CACHE].size, o - BUFCTL, o - BUFCTL);
  }

  lemma DeadIsNoCache(m: Mem, o: int)
    requires Inv(m) && !Live(m, CACHE_CACHE, o) && o != CACHE_CACHE
    ensures o !in m.caches
  {
  }

  ghost function WithCache(m: Mem, a: int, size: nat): Mem {
    m.(caches := m.caches[a := Cache(size, [], [], [])], cacheList := m.cacheList + [a])
  }

  lemma NewCacheKeeps(m: Mem, a: int, size: nat)
    requires Inv(m) && Live(m, CACHE_CACHE, a) && a !in m.caches && a != CACHE_CACHE
    ensures Inv(WithCache(m, a, size)) && Pages(WithCache(m, a, size)) == Pages(m)
    ensures forall d, x :: Live(WithCache(m, a, size), d, x) <==> Live(m, d, x)
  {
    var m' := WithCache(m, a, size);
    forall p | p in m'.slabs ensures SlabOk(m', p) && m.slabs[p].cache != a { assert SlabOk(m, p); }
    forall c | c in m'.caches ensures CacheOk(m', c) {
      if c != a { assert CacheOk(m, c); }
      forall k, p ensures p in m'.caches[c].List(k) <==> Filed(m', c, k, p) {
        if c != a { assert p in m.caches[c].List(k) <==> Filed(m, c, k, p); }
      }
    }
    forall d, x ensures Live(m', d, x) <==> Live(m, d, x) {
      if PageOf(x - BUFCTL) in m.slabs { assert SlabOk(m, PageOf(x - BUFCTL)); }
    }
  }

  // ---------- Destroying a cache ----------

  lemma ReleaseOne(m: Mem, c: int)
    requires Inv(m) && c in m.caches && m.caches[c].free != []
    ensures var g := Release(m, c);
      && Inv(g) && Pages(g) == Pages(m) && g.cacheList == m.cacheList
      && g.caches == m.caches[c := m.caches[c].(free := g.caches[c].free)]
    ensures forall d, x :: Live(Release(m, c), d, x) <==> Live(m, d, x)
  {
    ReleaseKeeps(m, c);
    ReleasePool(m, c);
    assert Pages(Release(m, c)) == Pages(m);
    forall d, x ensures Live(Release(m, c), d, x) <==> Live(m, d, x) { ReleaseLive(m, c, d, x); }
  }

  /** Returning free slabs leaves everything else as it was. */
  lemma {:induction false} ReleaseAllKeeps(m: Mem, c: int)
    requires Inv(m) && c in m.caches
    ensures var g := ReleaseAll(m, c);
      && Inv(g) && Pages(g) == Pages(m) && g.cacheList == m.cacheList
      && g.caches == m.caches[c := m.caches[c].(free := [])]
    ensures forall d, x :: Live(ReleaseAll(m, c), d, x) <==> Live(m, d, x)
    decreases |m.caches[c].free|
  {
    hide Inv, Live, Pages;
    if m.caches[c].free == [] {
      assert m.caches == m.caches[c := m.caches[c].(free := [])];
    } else {
      ReleaseOne(m, c);
      ReleaseAllKeeps(Release(m, c), c);
    }
  }

  /** With no slab left nothing refers to the cache any more. */
  lemma ForgottenOk(m: Mem, c: int)
    requires Inv(m) && c in m.caches && c != CACHE_CACHE
    requires m.caches[c].free == [] && m.caches[c].partial == [] && m.caches[c].full == []
    ensures Inv(Forgotten(m, c)) && Live(Forgotten(m, c), CACHE_CACHE, c)
    ensures forall d, x :: Live(Forgotten(m, c), d, x) <==> Live(m, d, x)
  {
    var m' := Forgotten(m, c);
    RemoveNoDup(m.cacheList, c);
    forall p | p in m.slabs ensures m.slabs[p].cache != c && SlabOk(m', p) {
      assert SlabOk(m, p) && CacheOk(m, c);
      var k := KindOf(m.slabs[p].count, Capacity(m.caches[c].size));
      assert m.caches[c].List(k) == [];
      assert p in m.caches[c].List(k) <==> Filed(m, c, k, p);
    }
    forall d, x ensures Live(m', d, x) <==> Live(m, d, x) {}
    forall d | d in m'.caches ensures CacheOk(m', d) {
      assert CacheOk(m, d);
      forall k, p ensures p in m'.caches[d].List(k) <==> Filed(m', d, k, p) {
        assert p in m.caches[d].List(k) <==> Filed(m, d, k, p);
      }
    }
  }

  lemma ForgottenKeeps(m: Mem, c: int)
    requires Inv(m) && c in m.caches && c != CACHE_CACHE && m.caches[c].partial == [] && m.caches[c].full == []
    ensures var g := Forgotten(ReleaseAll(m, c), c); var p := PageOf(c - BUFCTL);
      && Inv(g) && Live(g, CACHE_CACHE, c) && c !in g.caches && Pages(g) == Pages(m)
      && p in g.slabs && g.slabs[p].cache == CACHE_CACHE && CACHE_CACHE in g.caches
    ensures forall d, x :: Live(Forgotten(ReleaseAll(m, c), c), d, x) <==> Live(m, d, x)
  {
    ReleaseAllKeeps(m, c);
    ForgottenOk(ReleaseAll(m, c), c);
  }

  /** A slab that is not on the free list holds a live object. */
  lemma UsedSlab(m: Mem, c: int, k: Kind, p: int) returns (x: int)
    requires Inv(m) && c in m.caches && k != Free && p in m.caches[c].List(k)
    ensures Live(m, c, x)
  {
    assert CacheOk(m, c) && Filed(m, c, k, p) && SlabOk(m, p);
    var size := m.caches[c].size;
    ChunksNoDup(p, size);
    var bc := Uncovered(Chunks(p, size), m.slabs[p].bufs);
    ChunkInPage(p, size, bc, bc);
    x := bc + BUFCTL;
  }

  lemma Uncovered(s: seq<int>, t: seq<int>) returns (x: int)
    requires NoDup(s) && NoDup(t) && |t| != |s| && forall y :: y in t ==> y in s
    ensures x in s && x !in t
  {
    var a, b := set y | y in s, set y | y in t;
    SetSize(s);
    SetSize(t);
    assert b <= a;
    assert a == b + (a - b) && |a| == |b| + |a - b|;
    x :| x in a - b;
  }

  /** A cache can be destroyed exactly when nothing of it is live; then only its own object dies. */
  lemma DestroyKeeps(m: Mem, c: int)
    requires Inv(m) && c in m.caches && c != CACHE_CACHE
    ensures var (m', ok) := Destroy(m, c);
      && Inv(m') && Pages(m') == Pages(m)
      && (ok <==> forall x :: !Live(m, c, x))
      && (!ok ==> m' == m)
      && (ok ==> m'.caches.Keys == m.caches.Keys - {c} && m'.cacheList == Remove(m.cacheList, c))
      && (forall d :: d in m'.caches ==> d in m.caches && m'.caches[d].size == m.caches[d].size)
      && (ok ==> forall d, x :: Live(m', d, x) <==> Live(m, d, x) && !(d == CACHE_CACHE && x == c))
  {
    if m.caches[c].partial != [] {
      var x := UsedSlab(m, c, Partial, m.caches[c].partial[0]);
    } else if m.caches[c].full != [] {
      var x := UsedSlab(m, c, Full, m.caches[c].full[0]);
    } else {
      ReleaseAllKeeps(m, c);
      ForgottenKeeps(m, c);
      var g := Forgotten(ReleaseAll(m, c), c);
      GiveBackKeeps(g, CACHE_CACHE, CACHE_CACHE, c);
      forall x ensures !Live(m, c, x) {
        assert Live(m, c, x) <==> Live(g, c, x);
      }
    }
  }

  // ---------- Runs ----------

  datatype Action = DoCreate(size: nat) | DoAlloc(cache: int) | DoFree(cache: int, object: int) | DoDestroy(cache: int)

  /**
    Callers name caches they were given and free objects they hold. A cache can have any
    size, but allocating from one of inexact size takes a null block: see InexactRunsDry.
   */
  ghost predicate Enabled(m: Mem, a: Action) {
    match a
    case DoCreate(_) => true
    case DoAlloc(c) => c in m.caches && c != CACHE_CACHE && CanAllocate(m, c)
    case DoFree(_, o) => exists c :: c != CACHE_CACHE && Live(m, c, o)
    case DoDestroy(c) => c in m.caches && c != CACHE_CACHE
  }

  ghost function Step(m: Mem, a: Action): Mem
    requires Inv(m) && Enabled(m, a)
  {
    match a
    case DoCreate(size) => Create(m, size).0
    case DoAlloc(c) => Allocate(m, c).0
    case DoFree(c, o) => Given(m, o); GiveBack(m, c, o).0
    case DoDestroy(c) => Destroy(m, c).0
  }

  lemma Given(m: Mem, o: int)
    requires Inv(m) && exists c :: c != CACHE_CACHE && Live(m, c, o)
    ensures PageOf(o - BUFCTL) in m.slabs && m.slabs[PageOf(o - BUFCTL)].cache in m.caches
  {
  }

  lemma StepKeeps(m: Mem, a: Action)
    requires Inv(m) && Enabled(m, a)
    ensures Inv(Step(m, a)) && Pages(Step(m, a)) == Pages(m)
  {
    match a
    case DoCreate(size) => CreateKeeps(m, size);
    case DoAlloc(c) => AllocateKeeps(m, c);
    case DoFree(d, o) =>
      var c :| c != CACHE_CACHE && Live(m, c, o);
      GiveBackKeeps(m, c, d, o);
    case DoDestroy(c) => DestroyKeeps(m, c);
  }

  /** Where the invariant failed, anything could follow. */
  ghost predicate Next(m: Mem, a: Action, m': Mem) {
    Enabled(m, a) && (Inv(m) ==> m' == Step(m, a))
  }

  ghost predicate IsRun(ms: seq<Mem>, acts: seq<Action>) {
    |ms| == |acts| + 1 && forall i :: 0 <= i < |acts| ==> Next(ms[i], acts[i], ms[i + 1])
  }

  /** Over every run the invariant holds and no page is lost, gained or held twice. */
  lemma {:induction false} RunKeeps(ms: seq<Mem>, acts: seq<Action>)
    requires IsRun(ms, acts) && Inv(ms[0])
    ensures Inv(ms[|acts|]) && Pages(ms[|acts|]) == Pages(ms[0])
    decreases |acts|
  {
    if acts != [] {
      var n := |acts| - 1;
      forall i | 0 <= i < n
        ensures Next(ms[..n + 1][i], acts[..n][i], ms[..n + 1][i + 1])
      {
        assert Next(ms[i], acts[i], ms[i + 1]);
      }
      RunKeeps(ms[..n + 1], acts[..n]);
      assert Next(ms[n], acts[n], ms[n + 1]);
      StepKeeps(ms[n], acts[n]);
    }
  }

  /** What the setup functions leave: the pool filled, and only the cache of caches. */
  ghost predicate Initial(m: Mem) {
    && NoDup(m.pool) && m.pool != [] && m.pool[|m.pool| - 1] == 0
    && |m.pool| <= STACK_SIZE && (forall p :: p in m.pool ==> Aligned(p) && 0 <= p < HIGHMEM)
    && m.slabs == map[] && m.caches == map[CACHE_CACHE := Cache(CACHE, [], [], [])] && m.cacheList == [CACHE_CACHE]
  }

  lemma InitialInv(m: Mem)
    requires Initial(m)
    ensures Inv(m)
    ensures forall c, x :: !Live(m, c, x)
  {
    assert Exact(CACHE) by { ExactSizes(CACHE); }
    forall k, p ensures p in m.caches[CACHE_CACHE].List(k) <==> Filed(m, CACHE_CACHE, k, p) {}
    forall k ensures NoDup(m.caches[CACHE_CACHE].List(k)) {}
    assert CacheOk(m, CACHE_CACHE);
  }

  // ---------- What the invariant means for the memory ----------

  predicate Apart(a: int, n: int, b: int, k: int) {
    a + n <= b || b + k <= a
  }

  /** No object overlaps another one, whatever caches they are from. */
  lemma LiveApart(m: Mem, c: int, o: int, d: int, o': int)
    requires Inv(m) && Live(m, c, o) && Live(m, d, o') && (c != d || o != o')
    ensures Apart(o, m.caches[c].size, o', m.caches[d].size)
  {
    var p, q := PageOf(o - BUFCTL), PageOf(o' - BUFCTL);
    assert SlabOk(m, p) && SlabOk(m, q);
    BlocksApart(p, m.caches[c].size, o - BUFCTL, q, m.caches[d].size, o' - BUFCTL);
  }

  /** No object overlaps a control block, or the header at the start of a slab. */
  lemma LiveOffMetadata(m: Mem, c: int, o: int, q: int, bc: int)
    requires Inv(m) && Live(m, c, o) && q in m.slabs
    requires m.slabs[q].cache in m.caches && bc in Chunks(q, m.caches[m.slabs[q].cache].size)
    ensures Apart(o, m.caches[c].size, bc, BUFCTL)
    ensures Apart(o, m.caches[c].size, q, SLAB)
  {
    var p, size := PageOf(o - BUFCTL), m.caches[c].size;
    assert SlabOk(m, p) && SlabOk(m, q);
    BlocksApart(p, size, o - BUFCTL, q, m.caches[m.slabs[q].cache].size, bc);
    ChunkInPage(p, size, o - BUFCTL, o - BUFCTL);
    PageStep(p, q);
  }

  lemma PageStep(p: int, q: int)
    requires Aligned(p) && Aligned(q)
    ensures p == q || p + PAGE <= q || q + PAGE <= p
  {
  }

  /** Blocks with their objects, wherever they are, are the same or apart. */
  lemma BlocksApart(p: int, size: nat, x: int, q: int, size': nat, y: int)
    requires Aligned(p) && Aligned(q) && x in Chunks(p, size) && y in Chunks(q, size') && (p == q ==> size == size')
    ensures x == y || Apart(x, Stride(size), y, Stride(size'))
  {
    ChunkInPage(p, size, x, x);
    ChunkInPage(q, size', y, y);
    if p == q {
      var i :| 0 <= i < Threaded(size) && x == Chunk(p, size, i);
      var j :| 0 <= j < Threaded(size) && y == Chunk(p, size, j);
      if i < j { ChunksApart(p, size, i, j); } else if j < i { ChunksApart(p, size, j, i); }
    } else {
      PageStep(p, q);
    }
  }

  /** Page 0 is the last of the stack and stays there: it never becomes a slab. */
  lemma PageZeroStays(ms: seq<Mem>, acts: seq<Action>)
    requires IsRun(ms, acts) && Initial(ms[0])
    ensures 0 in ms[|acts|].pool && 0 !in ms[|acts|].slabs
  {
    InitialInv(ms[0]);
    RunKeeps(ms, acts);
  }

  // ---------- The sizes that break ----------

  /** The slab allocation turns to next has no block: the block taken would be null. */
  predicate Dry(m: Mem, c: int)
    requires c in m.caches
  {
    var p := Head(m.caches[c]);
    p.Some? && p.value in m.slabs && m.slabs[p.value].bufs == []
  }

  /**
    For every inexact size a cache that has to grow is dry at once, or, for 2027, after one
    allocation, though the counter of that slab says otherwise.
   */
  lemma InexactRunsDry(m: Mem, c: int)
    requires c in m.caches && |m.pool| > 1 && m.caches[c].partial == [] && m.caches[c].free == []
    requires !Exact(m.caches[c].size)
    ensures var (g, p) := (Grow(m, c), m.pool[0]);
      && Head(g.caches[c]) == Some(p)
      && (m.caches[c].size != 2027 ==> Dry(g, c))
      && (m.caches[c].size == 2027 ==>
            g.slabs[p].bufs != [] && Take(g, p).slabs[p].count == 1 && c in Take(g, p).caches && Dry(Take(g, p), c))
  {
    var (g, p) := (Grow(m, c), m.pool[0]);
    ExactSizes(m.caches[c].size);
    var cache := g.caches[c];
    assert cache.free == [p];
  }

  lemma CreateSucceeds(m: Mem, size: nat)
    requires Inv(m) && |m.pool| > 1
    ensures Create(m, size).1.Some? && |Create(m, size).0.pool| >= |m.pool| - 1
  {
    hide Inv, Take, Grow, Chunks;
    HasCacheCache(m);
    AllocateKeeps(m, CACHE_CACHE);
    AllocatePool(m, CACHE_CACHE);
  }

  lemma AllocatePool(m: Mem, c: int)
    requires Inv(m) && c in m.caches && CanAllocate(m, c)
    ensures |Allocate(m, c).0.pool| >= |m.pool| - 1
  {
  }

  /** A held object that is freed twice: the second time is accepted as well. */
  lemma FreedTwice(m: Mem, c: int, o: int) returns (m': Mem)
    requires Inv(m) && Live(m, c, o) && c != CACHE_CACHE
    ensures Inv(m') && Next(m, DoFree(c, o), m')
    ensures PageOf(o - BUFCTL) in m'.slabs && m'.slabs[PageOf(o - BUFCTL)].cache in m'.caches
    ensures var (m2, ok) := GiveBack(m', c, o); ok && !Inv(m2)
  {
    GiveBackKeeps(m, c, c, o);
    m' := GiveBack(m, c, o).0;
    FreedSlab(m, c, o);
    hide Inv, Put, Live;
    FreeExact(m', c, o);
  }

  lemma FreedSlab(m: Mem, c: int, o: int)
    requires Inv(m) && Live(m, c, o)
    ensures var (p, m') := (PageOf(o - BUFCTL), GiveBack(m, c, o).0);
      p in m'.slabs && m'.slabs[p].cache == c && c in m'.caches
  {
  }

  lemma Created(m: Mem, size: nat) returns (m': Mem, c: int)
    requires Inv(m) && |m.pool| > 2
    ensures Inv(m') && Next(m, DoCreate(size), m') && |m'.pool| > 1
    ensures c in m'.caches && c != CACHE_CACHE && m'.caches[c].size == size
  {
    CreateSucceeds(m, size);
    CreateKeeps(m, size);
    HasCacheCache(m);
    hide Inv, Live, Create;
    m', c := Create(m, size).0, Create(m, size).1.value;
  }

  lemma Allocated(m: Mem, c: int) returns (m': Mem, o: int)
    requires Inv(m) && |m.pool| > 1 && c in m.caches && c != CACHE_CACHE && Exact(m.caches[c].size)
    ensures Inv(m') && Next(m, DoAlloc(c), m') && Live(m', c, o)
  {
    AllocateKeeps(m, c);
    hide Inv, Live, Allocate, Exact;
    m', o := Allocate(m, c).0, Allocate(m, c).1.value;
  }

  /** From every start a cache can be created, an object of it allocated and freed, and freed again: that is accepted. */
  lemma DoubleFreeHappens(m: Mem, size: nat) returns (ms: seq<Mem>, c: int, o: int)
    requires Initial(m) && |m.pool| > 2 && Exact(size)
    ensures IsRun(ms, [DoCreate(size), DoAlloc(c), DoFree(c, o)]) && ms[0] == m && Inv(ms[3])
    ensures PageOf(o - BUFCTL) in ms[3].slabs && ms[3].slabs[PageOf(o - BUFCTL)].cache in ms[3].caches
    ensures var (m', ok) := GiveBack(ms[3], c, o); ok && !Inv(m')
  {
    InitialInv(m);
    hide Inv, Live, GiveBack, Exact, Next, Initial, PageOf, IsRun;
    var m1, m2, m3;
    m1, c := Created(m, size);
    m2, o := Allocated(m1, c);
    m3 := FreedTwice(m2, c, o);
    ThreeSteps(m, m1, m2, m3, DoCreate(size), DoAlloc(c), DoFree(c, o));
    ms := [m, m1, m2, m3];
  }

  lemma ThreeSteps(m: Mem, m1: Mem, m2: Mem, m3: Mem, a: Action, b: Action, c: Action)
    requires Next(m, a, m1) && Next(m1, b, m2) && Next(m2, c, m3)
    ensures IsRun([m, m1, m2, m3], [a, b, c])
  {
    hide Next;
  }
}
