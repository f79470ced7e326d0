/** The hash table of processes and the threads of each: kern/proc.c. Names are not part of this model. */
module ProcTable {
  import opened Machine
  import opened SeqLists
  import opened PagePool

  const TABLELEN := 64

  class Proc {
    const pid: nat
    const addrspace: int
    /** The threads by number, in the order of their wrappers. */
    var threads: seq<nat>

    constructor (addrspace: int, pid: nat)
      ensures this.addrspace == addrspace && this.pid == pid && threads == []
    {
      this.addrspace := addrspace;
      this.pid := pid;
      threads := [];
    }

    /** proc_add_thread; `room` says whether there is memory for the wrapper. A thread may be added twice. */
    method AddThread(t: nat, room: bool) returns (ok: bool)
      modifies this`threads
      ensures ok == room && threads == if room then old(threads) + [t] else old(threads)
    {
      if room { threads := threads + [t]; }
      ok := room;
    }

    /** proc_remove_thread: the first wrapper of the thread goes. */
    method RemoveThread(t: nat) returns (ok: bool)
      modifies this`threads
      ensures ok <==> t in old(threads)
      ensures threads == Remove(old(threads), t)
    {
      var k := 0;
      while k < |threads|
        invariant 0 <= k <= |threads| && threads == old(threads)
        invariant t !in threads[..k]
      {
        if threads[k] == t {
          RemoveFirst(threads, k);
          threads := threads[..k] + threads[k + 1..];
          return true;
        }
        k := k + 1;
      }
      ok := false;
    }

    /**
      The loop of proc_destroy over the threads, of which those in `stuck` cannot be
      destroyed: it stops at the first of them.
     */
    method DropThreads(stuck: set<nat>) returns (ok: bool)
      modifies this`threads
      ensures ok <==> forall t :: t in old(threads) ==> t !in stuck
      ensures ok ==> threads == []
      ensures !ok ==> exists k :: 0 <= k < |old(threads)| && threads == old(threads)[k..] && FirstStuck(old(threads), stuck, k)
    {
      ghost var k := 0;
      while threads != []
        invariant 0 <= k <= |old(threads)| && threads == old(threads)[k..]
        invariant forall j :: 0 <= j < k ==> old(threads)[j] !in stuck
        decreases |threads|
      {
        if threads[0] in stuck {
          assert FirstStuck(old(threads), stuck, k);
          return false;
        }
        threads := threads[1..];
        k := k + 1;
      }
      ok := true;
    }
  }

  ghost predicate FirstStuck(ts: seq<nat>, stuck: set<nat>, k: nat) {
    k < |ts| && ts[k] in stuck && forall j :: 0 <= j < k ==> ts[j] !in stuck
  }

  lemma {:induction false} RemoveFirst(s: seq<nat>, k: nat)
    requires k < |s| && s[k] !in s[..k]
    ensures Remove(s, s[k]) == s[..k] + s[k + 1..]
  {
    if k > 0 {
      var rest := s[1..];
      assert s[0] in s[..k];
      assert s[..k] == [s[0]] + rest[..k - 1] && s[k + 1..] == rest[k..];
      RemoveFirst(rest, k - 1);
    }
  }

  function HashId(pid: nat): (i: nat)
    ensures i < TABLELEN
  {
    pid % TABLELEN
  }

  /** The pid of the process created after `n` others. */
  function PidOf(n: nat): nat {
    (1 + n) % WORD32
  }

  /** IPC_ANY, the pid 0, is handed out exactly when the counter has wrapped. */
  lemma AnyOnlyOnWrap(n: nat)
    ensures PidOf(n) == 0 <==> exists k: nat :: k > 0 && 1 + n == k * WORD32
  {
    if PidOf(n) == 0 {
      var k := (1 + n) / WORD32;
      assert 1 + n == k * WORD32 && k > 0;
    }
    forall k: nat | k > 0 && 1 + n == k * WORD32 ensures PidOf(n) == 0 {
      MultipleMod(k);
    }
  }

  lemma {:induction false} MultipleMod(k: nat)
    ensures k * WORD32 % WORD32 == 0
  {
    if k > 0 {
      MultipleMod(k - 1);
      assert k * WORD32 == (k - 1) * WORD32 + WORD32;
    }
  }

  lemma PidNext(n: nat)
    ensures PidOf(n + 1) == (PidOf(n) + 1) % WORD32
  {
  }

  /** The two creations are a multiple of 2^32 apart. */
  predicate Laps(n: int, k: int) {
    (k - n) % WORD32 == 0
  }

  lemma NearNeverLaps(n: int, k: int)
    requires -WORD32 < k - n < WORD32 && n != k
    ensures !Laps(n, k)
  {
  }

  /** Two processes have the same pid exactly if they are a multiple of 2^32 creations apart. */
  lemma SamePid(n: nat, k: nat)
    ensures PidOf(n) == PidOf(k) <==> Laps(n, k)
  {
    var (a, b) := (1 + n, 1 + k);
    assert a == a / WORD32 * WORD32 + a % WORD32 && b == b / WORD32 * WORD32 + b % WORD32;
    assert k - n == (b / WORD32 - a / WORD32) * WORD32 + (b % WORD32 - a % WORD32);
  }

  // ---------- Address spaces and the page pool ----------

  /** The pages held as address spaces by the processes alive. */
  ghost function Held(births: map<Proc, nat>): set<int> {
    set p | p in births && Aligned(p.addrspace) :: p.addrspace
  }

  /** Pages in the pool are whole and different, none is held, and there is room to return all that are. */
  ghost predicate Pooled(c: seq<int>, held: set<int>, room: nat) {
    && c != [] && c[|c| - 1] == 0 && NoDup(c)
    && (forall v :: v in c ==> Aligned(v) && v !in held)
    && |c| + |held| <= room
  }

  /** Every process has a page of its own, or the pool's error value. */
  ghost predicate Owned(births: map<Proc, nat>) {
    && (forall p :: p in births ==> Aligned(p.addrspace) || p.addrspace == POOL_ERROR)
    && (forall p, q :: p in births && q in births && p != q && Aligned(p.addrspace) ==> p.addrspace != q.addrspace)
  }

  /** Whoever takes the next page, and holds it or not. */
  lemma PageTaken(c: seq<int>, held: set<int>, room: nat)
    requires Pooled(c, held, room) && |c| > 1
    ensures c[0] != 0 && c[0] !in held && Aligned(c[0])
    ensures Pooled(c[1..], held, room) && Pooled(c[1..], held + {c[0]}, room)
  {
    assert c[0] in c;
  }

  lemma PageReturned(c: seq<int>, held: set<int>, room: nat, v: int)
    requires Pooled(c, held, room) && v in held && Aligned(v)
    ensures |c| < room && Pooled([v] + c, held - {v}, room)
  {
    assert |held - {v}| == |held| - 1;
  }

  lemma HeldAdds(births: map<Proc, nat>, p: Proc, n: nat)
    requires p !in births
    ensures Held(births[p := n]) == if Aligned(p.addrspace) then Held(births) + {p.addrspace} else Held(births)
  {
  }

  lemma HeldDrops(births: map<Proc, nat>, p: Proc)
    requires p in births && Owned(births)
    ensures Held(births - {p}) == if Aligned(p.addrspace) then Held(births) - {p.addrspace} else Held(births)
    ensures Aligned(p.addrspace) ==> p.addrspace in Held(births)
  {
  }

  lemma PoolSome(c: seq<int>, held: set<int>, room: nat)
    requires Pooled(c, held, room)
    ensures 0 < |c| <= room
  {
  }

  lemma OwnedOf(births: map<Proc, nat>, p: Proc)
    requires Owned(births) && p in births
    ensures Aligned(p.addrspace) <==> p.addrspace != POOL_ERROR
  {
  }

  lemma OwnedAdds(births: map<Proc, nat>, p: Proc, n: nat)
    requires Owned(births) && p !in births
    requires p.addrspace == POOL_ERROR || (Aligned(p.addrspace) && p.addrspace !in Held(births))
    ensures Owned(births[p := n])
  {
  }

  lemma OwnedDrops(births: map<Proc, nat>, p: Proc)
    requires Owned(births)
    ensures Owned(births - {p})
  {
  }

  /** The processes alive have different numbers, and the pids that go with them. */
  ghost predicate Numbered(births: map<Proc, nat>, created: nat) {
    && (forall p :: p in births ==> births[p] < created && p.pid == PidOf(births[p]))
    && (forall p, q :: p in births && q in births && births[p] == births[q] ==> p == q)
  }

  lemma NumberedAdds(births: map<Proc, nat>, created: nat, r: Proc)
    requires Numbered(births, created) && r !in births && r.pid == PidOf(created)
    ensures Numbered(births[r := created], created + 1)
  {
  }

  lemma NumberedDrops(births: map<Proc, nat>, created: nat, p: Proc)
    requires Numbered(births, created)
    ensures Numbered(births - {p}, created)
  {
  }

  /** Older processes come first. */
  ghost predicate Aging(s: seq<Proc>, births: map<Proc, nat>) {
    forall i, j :: 0 <= i < j < |s| && s[i] in births && s[j] in births ==> births[s[i]] < births[s[j]]
  }

  /** Each process alive is in its bucket, and nothing else is. */
  ghost predicate Bucketed(bs: seq<seq<Proc>>, births: map<Proc, nat>) {
    && |bs| == TABLELEN
    && (forall i :: 0 <= i < TABLELEN ==> InBucket(bs[i], births, i))
    && (forall p :: p in births ==> p in bs[HashId(p.pid)])
  }

  ghost predicate InBucket(s: seq<Proc>, births: map<Proc, nat>, i: nat) {
    Aging(s, births) && forall p :: p in s ==> p in births && HashId(p.pid) == i
  }

  lemma BucketedAdds(bs: seq<seq<Proc>>, births: map<Proc, nat>, r: Proc, n: nat)
    requires Bucketed(bs, births) && r !in births && forall p :: p in births ==> births[p] < n
    ensures var i := HashId(r.pid); Bucketed(bs[i := bs[i] + [r]], births[r := n])
  {
    var i := HashId(r.pid);
    var bs' := bs[i := bs[i] + [r]];
    hide Aging, HashId;
    forall k | 0 <= k < TABLELEN ensures InBucket(bs'[k], births[r := n], k) { AgingAdds(bs[k], births, r, n); }
  }

  lemma BucketedDrops(bs: seq<seq<Proc>>, births: map<Proc, nat>, p: Proc)
    requires Bucketed(bs, births) && p in births
    ensures var i := HashId(p.pid); Bucketed(bs[i := Remove(bs[i], p)], births - {p})
  {
    var i := HashId(p.pid);
    var bs' := bs[i := Remove(bs[i], p)];
    hide Aging, HashId, Remove;
    assert InBucket(bs[i], births, i);
    AgingRemove(bs[i], births, p);
    forall k | 0 <= k < TABLELEN ensures InBucket(bs'[k], births - {p}, k) { AgingLess(bs[k], births, p); }
  }

  lemma AgingNoDup(s: seq<Proc>, births: map<Proc, nat>)
    requires Aging(s, births) && forall p :: p in s ==> p in births
    ensures NoDup(s)
  {
  }

  lemma AgingRemove(s: seq<Proc>, births: map<Proc, nat>, p: Proc)
    requires Aging(s, births) && p in s && forall q :: q in s ==> q in births
    ensures p !in Remove(s, p) && Aging(Remove(s, p), births - {p})
  {
    AgingNoDup(s, births);
    RemoveNoDup(s, p);
    var i :| 0 <= i < |s| && s[i] == p;
    RemoveAt(s, i);
  }

  lemma AgingAdds(s: seq<Proc>, births: map<Proc, nat>, r: Proc, n: nat)
    requires Aging(s, births) && r !in births && forall q :: q in s ==> q in births && births[q] < n
    ensures Aging(s, births[r := n]) && Aging(s + [r], births[r := n])
  {
  }

  lemma AgingLess(s: seq<Proc>, births: map<Proc, nat>, p: Proc)
    requires Aging(s, births)
    ensures Aging(s, births - {p})
  {
  }

  class Table {
    const buckets: array<seq<Proc>>
    const pool: PagePool
    var seed: nat
    /** How many processes were created, and the number of each that is alive. */
    ghost var created: nat
    ghost var births: map<Proc, nat>

    ghost predicate Valid()
      reads this, buckets, pool, pool.stack
    {
      && pool.top <= pool.stack.Length && Pooled(pool.Contents(), Held(births), pool.stack.Length) && Owned(births)
      && seed == PidOf(created) && Linked()
    }

    /** Each process alive is in its bucket, once, and nothing else is. */
    ghost predicate Linked()
      reads this, buckets
    {
      buckets.Length == TABLELEN && Bucketed(buckets[..], births) && Numbered(births, created)
    }

    /** proc_setup. */
    constructor (pool: PagePool)
      requires pool.top <= pool.stack.Length && Pooled(pool.Contents(), {}, pool.stack.Length)
      ensures Valid() && this.pool == pool && births == map[] && seed == 1 && fresh(buckets)
    {
      buckets := new seq<Proc>[TABLELEN](_ => []);
      this.pool := pool;
      seed, created, births := 1, 0, map[];
      assert Held(map[]) == {};
    }

    /** No process alive is 2^32 creations old. */
    ghost predicate Young()
      reads this
    {
      forall p :: p in births ==> created - births[p] <= WORD32
    }

    /** No process alive is a multiple of 2^32 creations away from `r`. */
    ghost predicate Unshared(r: Proc)
      requires r in births
      reads this
    {
      forall p :: p in births && p != r ==> !Laps(births[r], births[p])
    }

    /** The pid of `r` names it alone. */
    ghost predicate Names(r: Proc)
      reads this
    {
      forall p :: p in births && p.pid == r.pid ==> p == r
    }

    /** A pid names one process exactly if no other one is a multiple of 2^32 creations away. */
    lemma NamesExactly(r: Proc)
      requires Valid() && r in births
      ensures Names(r) <==> Unshared(r)
    {
      forall p | p in births
        ensures p.pid == r.pid <==> Laps(births[r], births[p])
      {
        SamePid(births[r], births[p]);
      }
    }

    lemma BirthsBelow()
      requires Linked()
      ensures forall p :: p in births ==> births[p] < created
    {
    }

    lemma YoungUnshared(r: Proc)
      requires Linked() && Young() && r in births
      ensures Unshared(r)
    {
      hide Laps, PidOf, HashId;
      forall p | p in births && p != r ensures !Laps(births[r], births[p]) {
        assert births[p] != births[r];
        NearNeverLaps(births[r], births[p]);
      }
    }

    /** While the processes are young, the table is a map. */
    lemma Unique(r: Proc)
      requires Valid() && Young() && r in births
      ensures Names(r)
    {
      hide Pooled, Held, Owned, PidOf, HashId, Laps;
      YoungUnshared(r);
      NamesExactly(r);
    }

    /** proc_pid. */
    method Lookup(pid: nat) returns (r: Proc?)
      requires Valid()
      ensures r != null ==> r in births && r.pid == pid
      ensures r != null ==> forall p :: p in births && p.pid == pid ==> births[r] <= births[p]
      ensures r == null ==> forall p :: p in births ==> p.pid != pid
      ensures r != null ==> (Names(r) <==> Unshared(r))
    {
      var i := HashId(pid);
      if buckets[i] != [] {
        var k := 0;
        while k < |buckets[i]|
          invariant 0 <= k <= |buckets[i]|
          invariant forall j :: 0 <= j < k ==> buckets[i][j].pid != pid
        {
          if buckets[i][k].pid == pid {
            r := buckets[i][k];
            NamesExactly(r);
            return;
          }
          k := k + 1;
        }
        assert forall p :: p in births && p.pid == pid ==> p in buckets[i];
      }
      r := null;
    }

    /**
      proc_create; `room` says whether the process cache has an object, `synced` whether the
      address space was synchronized. The test for a missing page is for 0, which the pool
      never answers: an empty pool gives the process POOL_ERROR as its address space.
     */
    method Create(room: bool, synced: bool) returns (r: Proc?)
      requires Valid()
      modifies this`seed, this`created, this`births, buckets, pool`top, pool.stack
      ensures Valid()
      ensures r != null <==> room && synced
      ensures r == null ==> births == old(births) && created == old(created) && pool.Contents() == old(pool.Contents())
      ensures r != null ==> fresh(r) && r.pid == old(seed) && created == old(created) + 1
      ensures r != null ==> births == old(births)[r := old(created)] && r.threads == []
      ensures r != null && old(|pool.Contents()| == 1) ==>
                r.addrspace == POOL_ERROR && pool.Contents() == old(pool.Contents())
      ensures r != null && old(|pool.Contents()| > 1) ==>
                Aligned(r.addrspace) && [r.addrspace] + pool.Contents() == old(pool.Contents())
    {
      hide Pooled, Held, Owned;
      if !room {
        return null;
      }
      ghost var c, held := pool.Contents(), Held(births);
      PoolSome(c, held, pool.stack.Length);
      var asp := pool.Alloc();
      if |c| > 1 {
        PageTaken(c, held, pool.stack.Length);
      }
      if asp == 0 {
        return null;
      }
      if !synced {
        var ok := pool.Free(asp);
        assert pool.Contents() == c;
        return null;
      }
      var pid := seed;
      seed := (seed + 1) % WORD32;
      r := new Proc(asp, pid);
      PidNext(created);
      HeldAdds(births, r, created);
      OwnedAdds(births, r, created);
      Register(r);
    }

    /** Into its bucket. */
    method Register(r: Proc)
      requires buckets.Length == TABLELEN && r !in births && r.pid == PidOf(created)
      requires Linked() && seed == PidOf(created + 1)
      modifies this`created, this`births, buckets
      ensures Linked() && created == old(created) + 1 && births == old(births)[r := old(created)] && seed == PidOf(created)
    {
      hide Bucketed, Numbered, HashId;
      NumberedAdds(births, created, r);
      BirthsBelow();
      PidNext(created);
      BucketedAdds(buckets[..], births, r, created);
      ghost var bs := buckets[..];
      var i := HashId(r.pid);
      buckets[i] := buckets[i] + [r];
      assert buckets[..] == bs[i := bs[i] + [r]];
      births := births[r := created];
      created := created + 1;
    }

    /**
      proc_destroy. With a thread that cannot be destroyed the process stays, without the
      threads before that one; else its page is the next one to be handed out.
     */
    method Destroy(p: Proc, stuck: set<nat>) returns (ok: bool)
      requires Valid() && p in births
      modifies this`births, buckets, pool`top, pool.stack, p`threads
      ensures Valid()
      ensures ok <==> forall t :: t in old(p.threads) ==> t !in stuck
      ensures !ok ==> births == old(births) && pool.Contents() == old(pool.Contents())
      ensures !ok ==>
        exists k :: 0 <= k < |old(p.threads)| && p.threads == old(p.threads)[k..] && FirstStuck(old(p.threads), stuck, k)
      ensures ok ==> births == old(births) - {p} && p.threads == []
      ensures ok ==> pool.Contents() == if p.addrspace == POOL_ERROR then old(pool.Contents())
                                        else [p.addrspace] + old(pool.Contents())
    {
      hide Pooled, Held, Owned, FirstStuck;
      ok := p.DropThreads(stuck);
      if !ok {
        return;
      }
      OwnedOf(births, p);
      HeldDrops(births, p);
      OwnedDrops(births, p);
      if Aligned(p.addrspace) {
        PageReturned(pool.Contents(), Held(births), pool.stack.Length, p.addrspace);
      }
      var freed := pool.Free(p.addrspace);
      Unregister(p);
    }

    /** Out of its bucket. */
    method Unregister(p: Proc)
      requires Linked() && p in births
      modifies this`births, buckets
      ensures Linked() && births == old(births) - {p}
    {
      hide Bucketed, Numbered, HashId;
      NumberedDrops(births, created, p);
      BucketedDrops(buckets[..], births, p);
      ghost var bs := buckets[..];
      var i := HashId(p.pid);
      buckets[i] := Remove(buckets[i], p);
      assert buckets[..] == bs[i := Remove(bs[i], p)];
      births := births - {p};
    }
  }

  /** After proc_setup, with the pool as vm_pool_setup fills it. */
  method Boot(l: Layout) returns (t: Table)
    requires !Reserved(l, 0)
    ensures t.Valid() && t.births == map[]
    ensures forall v :: v in t.pool.Contents() <==> 0 <= v < HIGHMEM && Aligned(v) && !Reserved(l, v)
  {
    var pool := new PagePool(HIGHMEM / PAGE);
    pool.Setup(l);
    DescendsNoDup(pool.Contents(), HIGHMEM);
    t := new Table(pool);
  }

  /** A process comes and goes. */
  method Passing(t: Table, ghost p: Proc)
    requires t.Valid() && p in t.births
    modifies t`seed, t`created, t`births, t.buckets, t.pool`top, t.pool.stack
    ensures t.Valid() && t.births == old(t.births) && t.created == old(t.created) + 1
  {
    hide t.Valid, Pooled, Held, Owned;
    var r := t.Create(true, true);
    ghost var after := t.births;
    var ok := t.Destroy(r, {});
    assert after == old(t.births)[r := old(t.created)] && r !in old(t.births);
    assert t.births == old(t.births);
  }

  /** With 2^32 creations between them two processes alive share a pid, and looking it up cannot tell them apart. */
  method SharedPid(t: Table) returns (p: Proc, q: Proc)
    requires t.Valid()
    modifies t`seed, t`created, t`births, t.buckets, t.pool`top, t.pool.stack
    ensures t.Valid() && p != q && p in t.births && q in t.births && p.pid == q.pid
  {
    hide t.Valid, PidOf, Laps;
    var r := t.Create(true, true);
    p := r;
    ghost var before, born := t.births, t.births[p];
    var n := 1;
    while n < WORD32
      invariant 1 <= n <= WORD32 && t.Valid() && t.births == before && t.created == born + n
    {
      Passing(t, p);
      n := n + 1;
    }
    r := t.Create(true, true);
    q := r;
    SharedNow(t, p, q, born);
  }

  lemma SharedNow(t: Table, p: Proc, q: Proc, born: nat)
    requires t.Valid() && p in t.births && q in t.births && t.births[p] == born && t.births[q] == born + WORD32
    ensures p != q && p.pid == q.pid
  {
    SamePid(born, born + WORD32);
  }
}
