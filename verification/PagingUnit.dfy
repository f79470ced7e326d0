/** kern/arch/x86/vm_paging.c in place: every access to a table goes through the translation in force. */
module PagingUnit {
  import opened Machine
  import opened SeqLists
  import opened Paging
  import opened PagingRuns

  /** The translation in force; with paging off, addresses are physical. */
  function Translation(m: Memory, on: bool, cr3: Frame, v: Addr): Option<Addr> {
    if on then Walk(m, cr3, v) else Some(v)
  }

  /** The `j`th word of a page. */
  function Nth(v: Addr, j: Index): (a: Addr)
    requires Off(v) == 0
    ensures Off(a) == 4 * j && Dir(a) == Dir(v) && Tbl(a) == Tbl(v)
  {
    SamePageWord(v, j);
    v + 4 * j
  }

  lemma SamePageWord(v: Addr, j: Index)
    requires Off(v) == 0
    ensures v + 4 * j < WORD32
    ensures Off(v + 4 * j) == 4 * j && Dir(v + 4 * j) == Dir(v) && Tbl(v + 4 * j) == Tbl(v)
  {
    assert (v + 4 * j) / 0x1000 == v / 0x1000;
    PageNumber(v);
    PageNumber(v + 4 * j);
  }

  lemma WordAt(f: Frame, i: Index)
    ensures At(f, 4 * i) / 0x1000 == f && At(f, 4 * i) % 0x1000 / 4 == i
  {
  }

  /** The page at `v` is frame `f`, and writing that frame does not change this. */
  ghost predicate Opens(m: Memory, on: bool, cr3: Frame, v: Addr, f: Frame) {
    Off(v) == 0 && forall t: Table, j: Index :: OpensWith(m, on, cr3, v, f, t, j)
  }

  predicate OpensWith(m: Memory, on: bool, cr3: Frame, v: Addr, f: Frame, t: Table, j: Index)
    requires Off(v) == 0
  {
    Translation(m[f := t], on, cr3, Nth(v, j)) == Some(At(f, 4 * j))
  }

  ghost function Cleared(m: Memory, f: Frame, j: nat): Memory
    requires j <= ENTRIES
  {
    m[f := Absent(j) + m[f][j..]]
  }

  lemma ClearedNext(m: Memory, f: Frame, j: Index)
    ensures Cleared(m, f, j + 1) == Poke(Cleared(m, f, j), f, j, ABSENT)
  {
    AbsentNext(j);
    assert (Absent(j) + m[f][j..])[j := ABSENT] == Absent(j + 1) + m[f][j + 1..];
  }

  lemma ClearedEnds(m: Memory, f: Frame)
    ensures Cleared(m, f, 0) == m && Cleared(m, f, ENTRIES) == m[f := Absent(ENTRIES)]
  {
    assert Absent(0) + m[f][0..] == m[f];
    assert m[f := m[f]] == m;
    assert Absent(ENTRIES) + m[f][ENTRIES..] == Absent(ENTRIES);
  }

  class Unit {
    var mem: Memory
    var cr3: Frame
    var on: bool
    var kernPd: Frame

    function Translate(v: Addr): Option<Addr>
      reads this
    {
      Translation(mem, on, cr3, v)
    }

    ghost function Abs(ds: set<Frame>): State
      reads this
    {
      State(mem, cr3, ds)
    }

    method Load(v: Addr) returns (e: Entry)
      requires Translate(v).Some?
      ensures e == mem[Translate(v).value / 0x1000][Translate(v).value % 0x1000 / 4]
    {
      var a := Translate(v).value;
      e := mem[a / 0x1000][a % 0x1000 / 4];
    }

    method Store(v: Addr, e: Entry)
      requires Translate(v).Some?
      modifies this`mem
      ensures mem == Poke(old(mem), old(Translate(v)).value / 0x1000, old(Translate(v)).value % 0x1000 / 4, e)
    {
      var a := Translate(v).value;
      mem := Poke(mem, a / 0x1000, a % 0x1000 / 4, e);
    }

    /** x86_mem_set with zero on one page. */
    method ClearPage(v: Addr, ghost f: Frame)
      requires Opens(mem, on, cr3, v, f)
      modifies this`mem
      ensures mem == old(mem)[f := Absent(ENTRIES)]
    {
      ghost var m := mem;
      var j := 0;
      ClearedEnds(m, f);
      while j < ENTRIES
        invariant 0 <= j <= ENTRIES && mem == Cleared(m, f, j)
      {
        WordAt(f, j);
        assert OpensWith(m, on, cr3, v, f, mem[f], j) && m[f := mem[f]] == mem;
        ClearedNext(m, f, j);
        Store(Nth(v, j), ABSENT);
        j := j + 1;
      }
    }

    // ---------- Mapping and unmapping ----------

    /** The kernel's frames are where their physical addresses say, in whatever space is current. */
    ghost predicate Sees(f: Frame)
      reads this
    {
      forall i: Index :: Translate(At(f, 4 * i)) == Some(At(f, 4 * i))
    }

    method MapPage(v: Addr, p: Addr) returns (ok: bool)
      requires Sees(kernPd)
      requires Dir(v) != SELFMAP && mem[kernPd][Dir(v)].present ==> Sees(mem[kernPd][Dir(v)].base)
      modifies this`mem
      ensures (mem, ok) == Map(old(mem), kernPd, v, p)
    {
      var pde: nat, pte: nat := Dir(v), Tbl(v);
      if pde == SELFMAP {
        return false;
      }
      WordAt(kernPd, pde);
      var dirEntry := Load(At(kernPd, 4 * pde));
      if !dirEntry.present {
        return false;
      }
      WordAt(dirEntry.base, pte);
      var tblEntry := Load(At(dirEntry.base, 4 * pte));
      if tblEntry.present {
        return false;
      }
      Store(At(dirEntry.base, 4 * pte), Entry(true, p / 0x1000));
      ok := true;
    }

    method UnmapPage(v: Addr) returns (ok: bool)
      requires Sees(kernPd)
      requires Dir(v) != SELFMAP && mem[kernPd][Dir(v)].present ==> Sees(mem[kernPd][Dir(v)].base)
      modifies this`mem
      ensures (mem, ok) == Unmap(old(mem), kernPd, v)
    {
      var pde: nat, pte: nat := Dir(v), Tbl(v);
      if pde == SELFMAP {
        return false;
      }
      WordAt(kernPd, pde);
      var dirEntry := Load(At(kernPd, 4 * pde));
      if !dirEntry.present {
        return false;
      }
      WordAt(dirEntry.base, pte);
      var tblEntry := Load(At(dirEntry.base, 4 * pte));
      if !tblEntry.present {
        return false;
      }
      Store(At(dirEntry.base, 4 * pte), ABSENT);
      ok := true;
    }

    // ---------- Through the self map ----------

    /** vm_tophys: the walk of the MMU done in software, with 0 for no mapping. */
    method ToPhys(v: Addr) returns (p: Addr)
      requires on && SelfMapped(mem, cr3)
      ensures p == match Walk(mem, cr3, v) case Some(a) => a case None => 0
    {
      var pde: nat, pte: nat := Dir(v), Tbl(v);
      SelfMapDirectory(mem, cr3, pde);
      WordAt(cr3, pde);
      var dirEntry := Load(PD_ADDR + 4 * pde);
      if !dirEntry.present {
        return 0;
      }
      SelfMapTable(mem, cr3, pde, pte);
      WordAt(dirEntry.base, pte);
      var tblEntry := Load(PtAddr(pde) + 4 * pte);
      if !tblEntry.present {
        return 0;
      }
      p := At(tblEntry.base, Off(v));
    }

    /** vm_pf_resolvable. */
    method Resolvable(error: nat, v: Addr) returns (c: Fault)
      requires on && SelfMapped(mem, cr3)
      ensures c == Classify(mem, cr3, error, v)
    {
      if error !in {0, 2, 4, 6} {
        return Unresolvable;
      }
      var pde: nat, pte: nat := Dir(v), Tbl(v);
      if pde == SELFMAP {
        return Unresolvable;
      }
      SelfMapDirectory(mem, cr3, pde);
      WordAt(cr3, pde);
      var dirEntry := Load(PD_ADDR + 4 * pde);
      if !dirEntry.present {
        return Internal;
      }
      SelfMapTable(mem, cr3, pde, pte);
      WordAt(dirEntry.base, pte);
      var tblEntry := Load(PtAddr(pde) + 4 * pte);
      if !tblEntry.present {
        c := External;
      } else {
        c := Unresolvable;
      }
    }

    /** vm_pf_fix: the new table is cleared through the window its own directory entry has just opened. */
    method FixFault(v: Addr, p: Addr, flag: nat) returns (ok: bool)
      requires on && SelfMapped(mem, cr3) && p / 0x1000 != cr3
      requires Dir(v) == SELFMAP || mem[cr3][Dir(v)].present || flag % 2 == 1
      modifies this`mem
      ensures (mem, ok) == Fix(old(mem), cr3, v, p, flag)
    {
      var pde: nat, pte: nat := Dir(v), Tbl(v);
      if pde == SELFMAP {
        return false;
      }
      SelfMapDirectory(mem, cr3, pde);
      WordAt(cr3, pde);
      var dirEntry := Load(PD_ADDR + 4 * pde);
      if !dirEntry.present && flag % 2 == 1 {
        Store(PD_ADDR + 4 * pde, Entry(true, p / 0x1000));
        WindowOpens(mem, cr3, pde, p / 0x1000);
        ClearPage(PtAddr(pde), p / 0x1000);
        return true;
      }
      SelfMapTable(mem, cr3, pde, pte);
      WordAt(dirEntry.base, pte);
      var tblEntry := Load(PtAddr(pde) + 4 * pte);
      if !tblEntry.present && flag / 2 % 2 == 1 {
        Store(PtAddr(pde) + 4 * pte, Entry(true, p / 0x1000));
        return true;
      }
      ok := false;
    }

    /** The loop of vm_sync, on a directory that was just cleared in memory `m`. */
    method CopyKernel(pd: Addr, ghost m: Memory, ghost ds: set<Frame>)
      requires on && Safe(State(m, cr3, ds), kernPd) && pd != 0 && Enabled(State(m, cr3, ds), kernPd, PagingRuns.SyncSpace(pd))
      requires mem == Copied(m, kernPd, Physical(State(m, cr3, ds), pd), 0)
      modifies this`mem
      ensures mem == Copied(m, kernPd, Physical(State(m, cr3, ds), pd), KERNEL_TABLES)
    {
      hide Inv, Fresh, KernelMapped, Walk, Copied;
      ghost var f := Physical(State(m, cr3, ds), pd);
      var i: nat := 0;
      while i < KERNEL_TABLES
        invariant 0 <= i <= KERNEL_TABLES
        invariant mem == Copied(m, kernPd, f, i)
      {
        CopiedSees(m, kernPd, ds, cr3, pd, i);
        var e := Load(At(kernPd, 4 * i));
        Store(Nth(pd, i), e);
        CopiedNext(m, kernPd, f, i);
        i := i + 1;
      }
    }

    /** vm_sync on the new directory at `pd`. */
    method SyncSpace(pd: Addr, ghost ds: set<Frame>) returns (ok: bool)
      requires on && Safe(Abs(ds), kernPd) && Enabled(Abs(ds), kernPd, PagingRuns.SyncSpace(pd))
      modifies this`mem
      ensures ok <==> pd != 0
      ensures mem == if pd == 0 then old(mem) else Sync(old(mem), kernPd, old(Physical(Abs(ds), pd)))
      ensures ok ==> OnlyIn(old(mem), mem, old(Physical(Abs(ds), pd)))
      ensures ok ==> forall v: Addr :: Dir(v) != SELFMAP ==>
        Walk(mem, old(Physical(Abs(ds), pd)), v) == if v < HIGHMEM then old(Walk(mem, kernPd, v)) else None
    {
      if pd == 0 {
        return false;
      }
      ghost var m, f := mem, Physical(Abs(ds), pd);
      hide Inv, Fresh, KernelMapped, Walk, Opens, OpensWith, Absent, Sync, Copied;
      FreshOpens(m, kernPd, ds, cr3, pd);
      ClearPage(pd, f);
      CopiedFirst(m, kernPd, f);
      CopyKernel(pd, m, ds);
      CopiedSees(m, kernPd, ds, cr3, pd, KERNEL_TABLES);
      var p := ToPhys(pd);
      CopiedSelf(m, kernPd, ds, cr3, pd);
      SyncWalk(m, kernPd, ds, f);
      Store(Nth(pd, SELFMAP), Entry(true, p / 0x1000));
      ok := true;
    }

    /**
      The page fault handler of kern/arch/x86/exceptions.c, given a free frame. It calls the
      fix whatever the class: a protection fault is on a mapped page, so that does nothing.
     */
    method PageFault(error: nat, v: Addr, frame: Frame)
      requires on && SelfMapped(mem, cr3) && frame != cr3
      requires error in {0, 2, 4, 6} || Walk(mem, cr3, v).Some?
      modifies this`mem
      ensures mem == Handle(old(mem), cr3, error, v, frame)
      ensures Dir(v) == SELFMAP || old(Walk(mem, cr3, v)).Some? ==> mem == old(mem)
      ensures Dir(v) != SELFMAP && old(Walk(mem, cr3, v)).None? && old(mem[cr3][Dir(v)].present) ==>
        OnlyEntry(old(mem), mem, old(mem[cr3][Dir(v)].base), Tbl(v)) && mem[old(mem[cr3][Dir(v)].base)][Tbl(v)] == Entry(true, frame)
      ensures Dir(v) != SELFMAP && old(!mem[cr3][Dir(v)].present) ==>
        mem[cr3][Dir(v)] == Entry(true, frame) && (forall j: Index :: mem[frame][j] == ABSENT)
        && OnlyEntry(old(mem), mem[frame := old(mem)[frame]], cr3, Dir(v))
    {
      HandleIs(mem, cr3, error, v, frame);
      var c := Resolvable(error, v);
      FrameOf(frame);
      var ok := FixFault(v, At(frame, 0), c.Code() + RW);
    }

    /** vm_switch_to; a directory at physical address 0 is refused. */
    method SwitchTo(pd: Addr) returns (ok: bool)
      requires on && SelfMapped(mem, cr3)
      modifies this`cr3
      ensures ok <==> old(Walk(mem, cr3, pd).Some? && Walk(mem, cr3, pd).value != 0)
      ensures cr3 == if ok then old(Walk(mem, cr3, pd)).value / 0x1000 else old(cr3)
    {
      var p := ToPhys(pd);
      if p == 0 {
        return false;
      }
      cr3 := p / 0x1000;
      ok := true;
    }

    // ---------- Setup ----------

    /**
      vm_paging_setup: a directory and 64 tables are taken from `limit` on, and everything
      from the kernel up to the new limit is mapped where it is.
     */
    method Setup(limit: Addr, kernStart: Addr) returns (ok: bool, end: int)
      requires !on && Off(limit) == 0 && kernStart <= limit && limit + (KERNEL_TABLES + 1) * 0x1000 < WORD32
      modifies this
      ensures end == limit + (KERNEL_TABLES + 1) * 0x1000
      ensures ok <==> end <= HIGHMEM
      ensures ok ==> on && cr3 == kernPd == limit / 0x1000 && Safe(Abs({kernPd}), kernPd)
      ensures ok ==> IdentityUpTo(mem, kernPd, kernStart / 0x1000 * 0x1000, end)
      ensures Outside(old(mem), mem, limit / 0x1000) && (!ok ==> !on && cr3 == old(cr3))
    {
      hide Inv, Map, Walk, OnlyKernel, IdentityUpTo, Built, KernelMapped, Outside;
      ghost var m0 := mem;
      BuildTables(limit);
      end := limit + (KERNEL_TABLES + 1) * 0x1000;
      var p: int := kernStart / 0x1000 * 0x1000;
      BuiltInv(mem, kernPd, p);
      ghost var start := p;
      while p < end
        invariant start <= p <= end && p % 0x1000 == 0 && (p <= HIGHMEM || p == start)
        invariant OnlyKernel(mem, kernPd) && Inv(mem, kernPd, {kernPd}) && IdentityUpTo(mem, kernPd, start, p)
        invariant !on && kernPd == limit / 0x1000 && cr3 == old(cr3) && Outside(m0, mem, kernPd)
      {
        ghost var m := mem;
        IdentityNext(m, kernPd, start, p);
        ok := MapPage(p, p);
        OutsideNext(m0, m, mem, kernPd);
        if !ok {
          return;
        }
        p := p + 0x1000;
      }
      SetupMapped(mem, kernPd, start, end);
      cr3 := kernPd;
      on := true;
      ok := true;
    }

    method BuildTables(limit: Addr)
      requires !on && Off(limit) == 0 && limit + (KERNEL_TABLES + 1) * 0x1000 < WORD32
      modifies this`mem, this`kernPd
      ensures kernPd == limit / 0x1000 && Built(mem, kernPd, KERNEL_TABLES) && Outside(old(mem), mem, kernPd)
    {
      hide Built, Outside, Absent, Poke;
      ghost var m0 := mem;
      kernPd := limit / 0x1000;
      NewDirectory(limit);
      BuiltNone(m0, kernPd);
      OutsideNone(m0, kernPd);
      OutsideWrites(m0, m0, kernPd, kernPd, Absent(ENTRIES));
      OutsidePoke(m0, m0[kernPd := Absent(ENTRIES)], kernPd, kernPd, SELFMAP, Entry(true, kernPd));
      var next: int := limit + 0x1000;
      var i: nat := 0;
      while i < KERNEL_TABLES
        invariant 0 <= i <= KERNEL_TABLES && !on && kernPd == limit / 0x1000
        invariant next == limit + (i + 1) * 0x1000
        invariant Built(mem, kernPd, i) && Outside(m0, mem, kernPd)
      {
        var table: Addr := next;
        next := next + 0x1000;
        ghost var m := mem;
        TableAddress(limit, i);
        AddTable(limit, i, table);
        BuiltNext(m, kernPd, i);
        OutsidePoke(m0, m, kernPd, kernPd, i, Entry(true, table / 0x1000));
        OutsideWrites(m0, Poke(m, kernPd, i, Entry(true, table / 0x1000)), kernPd, table / 0x1000, Absent(ENTRIES));
        i := i + 1;
      }
    }

    /** A cleared directory that maps itself. */
    method NewDirectory(limit: Addr)
      requires !on && Off(limit) == 0 && kernPd == limit / 0x1000
      modifies this`mem
      ensures mem == Poke(old(mem)[kernPd := Absent(ENTRIES)], kernPd, SELFMAP, Entry(true, kernPd))
    {
      hide Absent, Opens, OpensWith;
      PhysicalOpens(mem, cr3, limit);
      ClearPage(limit, kernPd);
      WordAt(kernPd, SELFMAP);
      PhysicalWord(limit, SELFMAP);
      Store(Nth(limit, SELFMAP), Entry(true, kernPd));
    }

    /** One round of that loop: entry `i` of the directory at `limit` gets a cleared table. */
    method AddTable(limit: Addr, i: Index, table: Addr)
      requires !on && Off(limit) == 0 && Off(table) == 0 && kernPd == limit / 0x1000
      modifies this`mem
      ensures mem == Poke(old(mem), kernPd, i, Entry(true, table / 0x1000))[table / 0x1000 := Absent(ENTRIES)]
    {
      hide Absent, Opens, OpensWith;
      WordAt(kernPd, i);
      PhysicalWord(limit, i);
      Store(Nth(limit, i), Entry(true, table / 0x1000));
      PhysicalOpens(mem, cr3, table);
      ClearPage(table, table / 0x1000);
    }
  }

  /** The fault handler, told by what it finds under the address. */
  lemma HandleIs(m: Memory, d: Frame, error: nat, v: Addr, f: Frame)
    requires f != d && (NotPresent(error) || Walk(m, d, v).Some?)
    ensures var m' := Handle(m, d, error, v, f);
      if Dir(v) == SELFMAP || Walk(m, d, v).Some? then m' == m
      else if m[d][Dir(v)].present then
        OnlyEntry(m, m', m[d][Dir(v)].base, Tbl(v)) && m'[m[d][Dir(v)].base][Tbl(v)] == Entry(true, f)
      else
        && m'[d][Dir(v)] == Entry(true, f) && (forall j: Index :: m'[f][j] == ABSENT)
        && OnlyEntry(m, m'[f := m[f]], d, Dir(v))
  {
    FrameOf(f);
  }

  lemma PhysicalWord(v: Addr, j: Index)
    requires Off(v) == 0
    ensures Nth(v, j) == At(v / 0x1000, 4 * j)
  {
  }

  lemma PhysicalOpens(m: Memory, cr3: Frame, v: Addr)
    requires Off(v) == 0
    ensures Opens(m, false, cr3, v, v / 0x1000)
  {
    forall t: Table, j: Index
      ensures OpensWith(m, false, cr3, v, v / 0x1000, t, j)
    {
      PhysicalWord(v, j);
    }
  }

  lemma TableAddress(limit: Addr, i: nat)
    requires Off(limit) == 0 && limit + (i + 1) * 0x1000 < WORD32
    ensures var table: Addr := limit + (i + 1) * 0x1000; Off(table) == 0 && table / 0x1000 == limit / 0x1000 + 1 + i
  {
  }

  /** The directory with its first `n` tables, all empty. */
  ghost predicate Built(m: Memory, k: Frame, n: nat)
    requires n <= KERNEL_TABLES
  {
    && k + n < FRAMES
    && SelfMapped(m, k)
    && (forall i: Index :: i < n ==> m[k][i] == Entry(true, k + 1 + i) && m[k + 1 + i] == Absent(ENTRIES))
    && (forall i: Index :: n <= i < SELFMAP ==> m[k][i] == ABSENT)
  }

  /** Only the kernel entries and the self map are there. */
  ghost predicate OnlyKernel(m: Memory, k: Frame) {
    && k + KERNEL_TABLES < FRAMES
    && SelfMapped(m, k)
    && (forall i: Index :: i < KERNEL_TABLES ==> m[k][i] == Entry(true, k + 1 + i))
    && (forall i: Index :: KERNEL_TABLES <= i < SELFMAP ==> m[k][i] == ABSENT)
  }

  /** Outside the self-map window, exactly the addresses from `start` up to `p` are mapped, each to itself. */
  ghost predicate IdentityUpTo(m: Memory, k: Frame, start: int, p: int) {
    forall v: Addr :: Dir(v) != SELFMAP ==> Walk(m, k, v) == if start <= v < p then Some(v) else None
  }

  /** No frame but those of the kernel directory at `k` and its tables behind it is written. */
  ghost predicate Outside(m0: Memory, m: Memory, k: Frame) {
    forall f: Frame :: f < k || k + KERNEL_TABLES < f ==> m[f] == m0[f]
  }

  lemma OutsideNone(m: Memory, k: Frame)
    ensures Outside(m, m, k)
  {
  }

  lemma OutsideWrites(m0: Memory, m: Memory, k: Frame, f: Frame, t: Table)
    requires Outside(m0, m, k) && k <= f <= k + KERNEL_TABLES
    ensures Outside(m0, m[f := t], k)
  {
  }

  lemma OutsidePoke(m0: Memory, m: Memory, k: Frame, f: Frame, i: Index, e: Entry)
    requires Outside(m0, m, k) && k <= f <= k + KERNEL_TABLES
    ensures Outside(m0, Poke(m, f, i, e), k)
  {
    OutsideWrites(m0, m, k, f, m[f][i := e]);
  }

  lemma OutsideNext(m0: Memory, m: Memory, m': Memory, k: Frame)
    requires Outside(m0, m, k) && Outside(m, m', k)
    ensures Outside(m0, m', k)
  {
  }

  lemma BuiltNone(m: Memory, k: Frame)
    requires k + KERNEL_TABLES < FRAMES
    ensures Built(Poke(m[k := Absent(ENTRIES)], k, SELFMAP, Entry(true, k)), k, 0)
  {
  }

  lemma BuiltNext(m: Memory, k: Frame, i: Index)
    requires i < KERNEL_TABLES && k + i + 1 < FRAMES && Built(m, k, i)
    ensures Built(Poke(m, k, i, Entry(true, k + 1 + i))[k + 1 + i := Absent(ENTRIES)], k, i + 1)
  {
    hide Absent;
  }

  lemma BuiltInv(m: Memory, k: Frame, p: int)
    requires Built(m, k, KERNEL_TABLES)
    ensures OnlyKernel(m, k) && Inv(m, k, {k})
    ensures IdentityUpTo(m, k, p, p)
  {
    hide Absent;
    assert DirectoryOk(m, k, {k}, k);
  }

  /** One step of the identity mapping: it goes through below 256 MB and fails above. */
  lemma IdentityNext(m: Memory, k: Frame, start: int, p: int)
    requires OnlyKernel(m, k) && Inv(m, k, {k}) && start <= p && p % 0x1000 == 0 && 0 <= p < WORD32
    requires IdentityUpTo(m, k, start, p)
    ensures var (m', ok) := Map(m, k, p, p);
      && (ok <==> p < HIGHMEM)
      && Outside(m, m', k)
      && (ok ==> OnlyKernel(m', k) && Inv(m', k, {k}) && IdentityUpTo(m', k, start, p + 0x1000))
  {
    MapWalk(m, k, {k}, p, p);
    if p < HIGHMEM {
      var m' := Map(m, k, p, p).0;
      assert Dir(p) < KERNEL_TABLES;
      forall v: Addr | Dir(v) != SELFMAP
        ensures Walk(m', k, v) == if start <= v < p + 0x1000 then Some(v) else None
      {
        SameOrOther(p, v);
      }
    }
  }

  lemma SameOrOther(p: Addr, v: Addr)
    requires Off(p) == 0
    ensures Dir(v) == Dir(p) && Tbl(v) == Tbl(p) <==> p <= v < p + 0x1000
    ensures p <= v < p + 0x1000 ==> At(p / 0x1000, Off(v)) == v
  {
    PageNumber(p);
    PageNumber(v);
  }

  lemma SetupMapped(m: Memory, k: Frame, start: int, end: int)
    requires OnlyKernel(m, k) && IdentityUpTo(m, k, start, end)
    requires start <= At(k, 0) && end == At(k, 0) + (KERNEL_TABLES + 1) * 0x1000 <= HIGHMEM
    ensures KernelMapped(m, k)
  {
    forall f: Frame | KernelFrame(m, k, f)
      ensures At(f, 0) < HIGHMEM && Walk(m, k, At(f, 0)) == Some(At(f, 0))
    {
      assert k <= f <= k + KERNEL_TABLES;
    }
  }

  /** The kernel sees all words of a frame exactly if it sees the first. */
  lemma FrameSeen(u: Unit, f: Frame)
    requires u.on
    ensures u.Sees(f) <==> Walk(u.mem, u.cr3, At(f, 0)) == Some(At(f, 0))
  {
    hide Walk;
    if Walk(u.mem, u.cr3, At(f, 0)) == Some(At(f, 0)) {
      forall i: Index ensures u.Translate(At(f, 4 * i)) == Some(At(f, 4 * i)) {
        WholePage(u.mem, u.cr3, f, 4 * i);
      }
    } else {
      var i: Index := 0;
      assert At(f, 4 * i) == At(f, 0);
    }
  }

  /** What MapPage and UnmapPage need holds in every safe state, exactly if the table of the page is seen. */
  lemma KernelSees(u: Unit, ds: set<Frame>, v: Addr)
    requires u.on && Safe(u.Abs(ds), u.kernPd)
    ensures u.Sees(u.kernPd)
    ensures TableSeen(u.Abs(ds), u.kernPd, v) <==>
      (Dir(v) != SELFMAP && u.mem[u.kernPd][Dir(v)].present ==> u.Sees(u.mem[u.kernPd][Dir(v)].base))
  {
    var k := u.kernPd;
    assert KernelFrame(u.mem, k, k);
    KernelShared(u.mem, k, ds, u.cr3, At(k, 0));
    FrameSeen(u, k);
    FrameSeen(u, u.mem[k][Dir(v)].base);
    hide Safe, Walk, u.Sees;
  }

  /** A new directory with the first `i` kernel entries copied. */
  ghost function Copied(m: Memory, k: Frame, f: Frame, i: nat): Memory
    requires i <= KERNEL_TABLES
  {
    m[f := m[k][..i] + Absent(ENTRIES - i)]
  }

  lemma CopiedFirst(m: Memory, k: Frame, f: Frame)
    ensures Copied(m, k, f, 0) == m[f := Absent(ENTRIES)]
  {
    assert m[k][..0] + Absent(ENTRIES) == Absent(ENTRIES);
  }

  lemma CopiedNext(m: Memory, k: Frame, f: Frame, i: Index)
    requires i < KERNEL_TABLES
    ensures Copied(m, k, f, i + 1) == Poke(Copied(m, k, f, i), f, i, m[k][i])
  {
    assert (m[k][..i] + Absent(ENTRIES - i))[i := m[k][i]] == m[k][..i + 1] + Absent(ENTRIES - i - 1);
  }

  /** While the fresh frame is written, both directories are still seen where they were. */
  lemma CopiedSees(m: Memory, k: Frame, ds: set<Frame>, cr3: Frame, pd: Addr, i: nat)
    requires Inv(m, k, ds) && cr3 in ds && KernelMapped(m, k) && Off(pd) == 0 && Walk(m, cr3, pd).Some?
    requires i <= KERNEL_TABLES && Fresh(m, ds, Walk(m, cr3, pd).value / 0x1000)
    ensures var f: Frame := Walk(m, cr3, pd).value / 0x1000; var m' := Copied(m, k, f, i);
      && Walk(m', cr3, At(k, 4 * i)) == Some(At(k, 4 * i)) && At(k, 4 * i) / 0x1000 == k && At(k, 4 * i) % 0x1000 / 4 == i
      && m'[k] == m[k] && SelfMapped(m', cr3)
      && Walk(m', cr3, pd) == Walk(m, cr3, pd)
      && Walk(m', cr3, Nth(pd, i)) == Some(At(f, 4 * i)) && At(f, 4 * i) / 0x1000 == f && At(f, 4 * i) % 0x1000 / 4 == i
      && Walk(m', cr3, Nth(pd, SELFMAP)) == Some(At(f, 4 * SELFMAP))
  {
    hide Absent, Walk, KernelMapped, Inv, Fresh;
    var f: Frame := Walk(m, cr3, pd).value / 0x1000;
    var t: Table := m[k][..i] + Absent(ENTRIES - i);
    DirectoriesKept(m, k, ds, cr3, f, t);
    KernelWord(m, k, ds, cr3, i);
    FreshWrite(m, k, ds, f, t, cr3, At(k, 4 * i));
    FreshWrite(m, k, ds, f, t, cr3, pd);
    FreshWrite(m, k, ds, f, t, cr3, Nth(pd, i));
    FreshWrite(m, k, ds, f, t, cr3, Nth(pd, SELFMAP));
    WordWalk(m, cr3, pd, i);
    WordWalk(m, cr3, pd, SELFMAP);
    WordAt(k, i);
    WordAt(f, i);
  }

  lemma DirectoriesKept(m: Memory, k: Frame, ds: set<Frame>, cr3: Frame, f: Frame, t: Table)
    requires Inv(m, k, ds) && cr3 in ds && Fresh(m, ds, f)
    ensures m[f := t][k] == m[k] && SelfMapped(m[f := t], cr3)
  {
    assert DirectoryOk(m, k, ds, cr3);
  }

  lemma KernelWord(m: Memory, k: Frame, ds: set<Frame>, cr3: Frame, i: Index)
    requires Inv(m, k, ds) && cr3 in ds && KernelMapped(m, k)
    ensures Walk(m, cr3, At(k, 4 * i)) == Some(At(k, 4 * i))
  {
    hide Walk, Inv;
    assert KernelFrame(m, k, k);
    WholePage(m, k, k, 4 * i);
    KernelShared(m, k, ds, cr3, At(k, 4 * i));
  }

  /** The words of a page lie in its frame. */
  lemma WordWalk(m: Memory, d: Frame, pd: Addr, i: Index)
    requires Off(pd) == 0 && Walk(m, d, pd).Some?
    ensures Walk(m, d, Nth(pd, i)) == Some(At(Walk(m, d, pd).value / 0x1000, 4 * i))
  {
    hide Nth, Dir, Tbl, Off, At;
    var e := m[m[d][Dir(pd)].base][Tbl(pd)];
    FrameOf(e.base);
  }

  lemma LastReplaced(s: seq<Entry>, n: nat, e: Entry)
    ensures (s + Absent(n + 1))[|s| + n := e] == s + Absent(n) + [e]
  {
    hide Absent;
    AbsentNext(n);
  }

  lemma CopiedSelf(m: Memory, k: Frame, ds: set<Frame>, cr3: Frame, pd: Addr)
    requires Walk(m, cr3, pd).Some?
    ensures var f: Frame := Walk(m, cr3, pd).value / 0x1000;
      && At(f, 4 * SELFMAP) / 0x1000 == f && At(f, 4 * SELFMAP) % 0x1000 / 4 == SELFMAP
      && Poke(Copied(m, k, f, KERNEL_TABLES), f, SELFMAP, Entry(true, f)) == Sync(m, k, f)
  {
    hide Absent, Walk, At;
    var f: Frame := Walk(m, cr3, pd).value / 0x1000;
    WordAt(f, SELFMAP);
    LastReplaced(m[k][..KERNEL_TABLES], SELFMAP - KERNEL_TABLES, Entry(true, f));
  }

  /** The page of a fresh frame stays where it is while it is written. */
  lemma FreshOpens(m: Memory, k: Frame, ds: set<Frame>, cr3: Frame, pd: Addr)
    requires Inv(m, k, ds) && cr3 in ds && Off(pd) == 0 && Walk(m, cr3, pd).Some?
    requires Fresh(m, ds, Walk(m, cr3, pd).value / 0x1000)
    ensures Opens(m, true, cr3, pd, Walk(m, cr3, pd).value / 0x1000)
  {
    var f: Frame := Walk(m, cr3, pd).value / 0x1000;
    forall t: Table, j: Index
      ensures OpensWith(m, true, cr3, pd, f, t, j)
    {
      FreshWrite(m, k, ds, f, t, cr3, Nth(pd, j));
    }
  }

  /** The window of a directory entry is the frame of that entry. */
  lemma WindowOpens(m: Memory, d: Frame, i: Index, f: Frame)
    requires SelfMapped(m, d) && m[d][i] == Entry(true, f) && f != d
    ensures Opens(m, true, d, PtAddr(i), f)
  {
    Split(SELFMAP, i, 0);
    forall t: Table, j: Index
      ensures OpensWith(m, true, d, PtAddr(i), f, t, j)
    {
      SelfMapTable(m[f := t], d, i, j);
    }
  }

  lemma {:induction false} AbsentNext(n: nat)
    ensures Absent(n + 1) == Absent(n) + [ABSENT]
  {
    if n > 0 { AbsentNext(n - 1); }
  }
}
