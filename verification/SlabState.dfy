/** The slab allocator as transformations of a memory value: kern/vm_slab.c over kern/vm_pool.c. */
module SlabState {
  import opened Machine
  import opened SeqLists
  import opened PagePool

  const SLAB := 18         // sizeof(struct slab)
  const BUFCTL := 12       // sizeof(struct bufctl)
  const CACHE := 54        // sizeof(struct vm_cache)
  const STACK_SIZE := HIGHMEM / PAGE

  /** The static cache of caches, in the kernel image: below the address of every pooled page but page 0. */
  const CACHE_CACHE := -1

  // ---------- Addresses inside a slab ----------

  function PageOf(x: int): int {
    x - x % PAGE
  }

  /** A control block and its object, side by side. */
  function Stride(size: nat): nat {
    size + BUFCTL
  }

  /** The counter a new slab starts with. */
  function Capacity(size: nat): nat {
    (PAGE - SLAB) / Stride(size)
  }

  /** How many control blocks the loop of vm_cache_grow threads into a page. */
  function Threaded(size: nat): nat {
    (PAGE - SLAB - 1) / Stride(size)
  }

  function Chunk(page: int, size: nat, i: int): int {
    page + SLAB + i * Stride(size)
  }

  ghost function Chunks(page: int, size: nat): (s: seq<int>)
    ensures |s| == Threaded(size)
  {
    seq(Threaded(size), i => Chunk(page, size, i))
  }

  /** Sizes whose pages hold as many objects as the counter says, and at least one. */
  predicate Exact(size: nat) {
    Capacity(size) == Threaded(size) > 0
  }

  // ---------- State ----------

  datatype Slab = Slab(count: int, bufs: seq<int>, cache: int)

  datatype Kind = Free | Partial | Full

  datatype Cache = Cache(size: nat, free: seq<int>, partial: seq<int>, full: seq<int>) {
    function List(k: Kind): seq<int> {
      match k
      case Free => free
      case Partial => partial
      case Full => full
    }

    function With(k: Kind, s: seq<int>): Cache {
      match k
      case Free => this.(free := s)
      case Partial => this.(partial := s)
      case Full => this.(full := s)
    }

    /** A slab that changes kind goes to the end of its new list. */
    function Refile(p: int, k: Kind, k': Kind): Cache {
      if k == k' then this else With(k, Remove(List(k), p)).With(k', List(k') + [p])
    }
  }

  function KindOf(count: int, capacity: nat): Kind {
    if count == capacity then Free else if count == 0 then Full else Partial
  }

  /** `base` holds the pointer stored in each control block, `pool` the page stack from its top. */
  datatype Mem = Mem(pool: seq<int>, slabs: map<int, Slab>, base: map<int, int>, caches: map<int, Cache>, cacheList: seq<int>)

  // ---------- Operations ----------

  /** A new slab with everything free. */
  ghost function Grow(m: Mem, c: int): Mem
    requires c in m.caches && |m.pool| > 1
  {
    var p, size := m.pool[0], m.caches[c].size;
    m.(pool := m.pool[1..],
       slabs := m.slabs[p := Slab(Capacity(size), Chunks(p, size), c)],
       base := m.base + map bc | bc in Chunks(p, size) :: bc + BUFCTL,
       caches := m.caches[c := m.caches[c].(free := m.caches[c].free + [p])])
  }

  function Refiled(m: Mem, p: int, s': Slab): Mem
    requires p in m.slabs && m.slabs[p].cache in m.caches
  {
    var s := m.slabs[p];
    var c := m.caches[s.cache];
    m.(slabs := m.slabs[p := s'],
       caches := m.caches[s.cache := c.Refile(p, KindOf(s.count, Capacity(c.size)), KindOf(s'.count, Capacity(c.size)))])
  }

  /** The slab allocation uses next. */
  function Head(c: Cache): Option<int> {
    if c.partial != [] then Some(c.partial[0]) else if c.free != [] then Some(c.free[0]) else None
  }

  /** The first free block of the slab goes. */
  function Take(m: Mem, p: int): Mem
    requires p in m.slabs && m.slabs[p].cache in m.caches && m.slabs[p].bufs != []
  {
    var s := m.slabs[p];
    Refiled(m, p, s.(count := s.count - 1, bufs := s.bufs[1..]))
  }

  /**
    The blocks `next` visits from the head after LLIST_ADD: a block that is free already is
    still linked, and the macro cuts the list off behind it: see Llist.CutOff.
   */
  function Linked(bufs: seq<int>, bc: int): seq<int> {
    if bc in bufs then bufs[..IndexOf(bufs, bc) + 1] else bufs + [bc]
  }

  /** How vm_cache_free files a slab whose counter has become `count`, by the branches it takes. */
  function Returned(c: Cache, p: int, count: int): Cache {
    var all := Capacity(c.size);
    if count != 1 then
      if count == all then c.With(Partial, Remove(c.partial, p)).With(Free, c.free + [p]) else c
    else if count == all then c.With(Full, Remove(c.full, p)).With(Free, c.free + [p])
    else c.With(Full, Remove(c.full, p)).With(Partial, c.partial + [p])
  }

  /** The block goes to the free blocks of its slab, whatever it was before. */
  function Put(m: Mem, p: int, bc: int): Mem
    requires p in m.slabs && m.slabs[p].cache in m.caches
  {
    var s := m.slabs[p];
    m.(slabs := m.slabs[p := s.(count := s.count + 1, bufs := Linked(s.bufs, bc))],
       caches := m.caches[s.cache := Returned(m.caches[s.cache], p, s.count + 1)])
  }

  /** The page of the first free slab of a cache goes back on the stack. */
  function Release(m: Mem, c: int): Mem
    requires c in m.caches && m.caches[c].free != []
  {
    var p := m.caches[c].free[0];
    m.(pool := [p] + m.pool,
       slabs := m.slabs - {p},
       caches := m.caches[c := m.caches[c].(free := m.caches[c].free[1..])])
  }

  ghost function Grown(m: Mem, c: int): Option<Mem>
    requires c in m.caches
  {
    if Head(m.caches[c]).Some? then Some(m) else if |m.pool| > 1 then Some(Grow(m, c)) else None
  }

  // ---------- Invariant ----------

  ghost predicate PoolOk(m: Mem) {
    && NoDup(m.pool) && m.pool != [] && m.pool[|m.pool| - 1] == 0
    && (forall p :: p in m.pool ==> Aligned(p) && 0 <= p < HIGHMEM && p !in m.slabs)
    && |m.pool| + |m.slabs| <= STACK_SIZE
  }

  ghost predicate SlabOk(m: Mem, p: int)
    requires p in m.slabs
  {
    var s := m.slabs[p];
    && Aligned(p) && 0 < p < HIGHMEM
    && s.cache in m.caches
    && s.count == |s.bufs| && NoDup(s.bufs)
    && (forall bc :: bc in s.bufs ==> bc in Chunks(p, m.caches[s.cache].size))
    && (forall bc :: bc in Chunks(p, m.caches[s.cache].size) ==> bc in m.base && m.base[bc] == bc + BUFCTL)
  }

  ghost predicate Filed(m: Mem, c: int, k: Kind, p: int)
  {
    p in m.slabs && m.slabs[p].cache == c && c in m.caches && KindOf(m.slabs[p].count, Capacity(m.caches[c].size)) == k
  }

  ghost predicate CacheOk(m: Mem, c: int)
    requires c in m.caches
  {
    && (Exact(m.caches[c].size) || forall k :: m.caches[c].List(k) == [])
    && (forall k :: NoDup(m.caches[c].List(k)))
    && (forall k, p :: p in m.caches[c].List(k) <==> Filed(m, c, k, p))
  }

  /** The object at `o` was handed out by cache `c` and not returned. */
  ghost predicate Live(m: Mem, c: int, o: int) {
    var p := PageOf(o - BUFCTL);
    && p in m.slabs && m.slabs[p].cache == c && c in m.caches
    && o - BUFCTL in Chunks(p, m.caches[c].size) && o - BUFCTL !in m.slabs[p].bufs
  }

  ghost predicate CachesOk(m: Mem) {
    && CACHE_CACHE in m.caches && m.caches[CACHE_CACHE].size == CACHE
    && (forall c :: c in m.caches && c != CACHE_CACHE ==> Live(m, CACHE_CACHE, c))
    && NoDup(m.cacheList) && (forall c :: c in m.cacheList <==> c in m.caches)
  }

  ghost predicate Inv(m: Mem) {
    && PoolOk(m)
    && (forall p :: p in m.slabs ==> SlabOk(m, p))
    && (forall c :: c in m.caches ==> CacheOk(m, c))
    && CachesOk(m)
  }
}
