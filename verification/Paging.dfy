/**
  Page tables in physical memory, the walk of the MMU (Intel 64 and IA-32 Architectures
  Software Developer's Manual, Volume 3A, section 4.3) and what kern/arch/x86/vm_paging.c
  does to them. Access rights are not modelled: of an entry only `present` and the base.
 */
module Paging {
  import opened Machine
  import opened SeqLists

  const ENTRIES := 1024
  const FRAMES := 0x10_0000
  const SELFMAP := 0x3FF
  const KERNEL_TABLES := HIGHMEM / PAGE / ENTRIES

  type Frame = f: nat | f < FRAMES
  type Addr = v: nat | v < WORD32
  type Index = i: nat | i < ENTRIES

  datatype Entry = Entry(present: bool, base: Frame)

  const ABSENT := Entry(false, 0)

  type Table = s: seq<Entry> | |s| == ENTRIES witness seq(ENTRIES, _ => ABSENT)
  type Memory = s: seq<Table> | |s| == FRAMES witness seq(FRAMES, _ => seq(ENTRIES, _ => ABSENT))

  // ---------- Addresses ----------

  function Dir(v: Addr): Index {
    v / 0x40_0000
  }

  function Tbl(v: Addr): Index {
    v / 0x1000 % ENTRIES
  }

  function Off(v: Addr): nat {
    v % 0x1000
  }

  function At(f: Frame, off: nat): (v: Addr)
    requires off < 0x1000
  {
    f * 0x1000 + off
  }

  /** VM_PAGING_GET_PD and VM_PAGING_GET_PT. */
  const PD_ADDR: Addr := SELFMAP * 0x40_0000 + SELFMAP * 0x1000

  function PtAddr(i: Index): Addr {
    SELFMAP * 0x40_0000 + i * 0x1000
  }

  // ---------- The walk ----------

  function Leaf(e: Entry, v: Addr): Option<Addr> {
    if e.present then Some(At(e.base, Off(v))) else None
  }

  function Walk(m: Memory, d: Frame, v: Addr): Option<Addr> {
    var pde := m[d][Dir(v)];
    if pde.present then Leaf(m[pde.base][Tbl(v)], v) else None
  }

  function Poke(m: Memory, f: Frame, i: Index, e: Entry): Memory {
    m[f := m[f][i := e]]
  }

  predicate SelfMapped(m: Memory, d: Frame) {
    m[d][SELFMAP] == Entry(true, d)
  }

  /** The pointer the macro VM_PAGING_GET_PD returns is the current page directory. */
  lemma SelfMapDirectory(m: Memory, d: Frame, i: Index)
    requires SelfMapped(m, d)
    ensures Walk(m, d, PD_ADDR + 4 * i) == Some(At(d, 4 * i))
  {
    var v: Addr := PD_ADDR + 4 * i;
    Split(SELFMAP, SELFMAP, 4 * i);
  }

  /** And that of VM_PAGING_GET_PT is the table of entry `k`, if it has one. */
  lemma SelfMapTable(m: Memory, d: Frame, k: Index, j: Index)
    requires SelfMapped(m, d)
    ensures Walk(m, d, PtAddr(k) + 4 * j) == if m[d][k].present then Some(At(m[d][k].base, 4 * j)) else None
  {
    Split(SELFMAP, k, 4 * j);
  }

  lemma Split(i: Index, j: Index, off: nat)
    requires off < 0x1000
    ensures var v: Addr := i * 0x40_0000 + j * 0x1000 + off; Dir(v) == i && Tbl(v) == j && Off(v) == off
  {
  }

  // ---------- Address spaces ----------

  /** `k` is the directory of the kernel, `ds` all directories in use. */
  ghost predicate Inv(m: Memory, k: Frame, ds: set<Frame>) {
    && k in ds
    && (forall d :: d in ds ==> DirectoryOk(m, k, ds, d))
    && (forall d: Frame, i: Index, d': Frame, j: Index :: Uses(m, ds, d, i) && Uses(m, ds, d', j) && m[d][i].base == m[d'][j].base ==>
          i == j && (d == d' || i < KERNEL_TABLES))
  }

  /** The kernel part is the kernel's, the last entry is the directory itself, no table is a directory. */
  ghost predicate DirectoryOk(m: Memory, k: Frame, ds: set<Frame>, d: Frame) {
    && SelfMapped(m, d)
    && (forall i: Index :: i < KERNEL_TABLES ==> m[d][i] == m[k][i] && m[d][i].present)
    && (forall i: Index :: i != SELFMAP && m[d][i].present ==> m[d][i].base !in ds)
  }

  ghost predicate Uses(m: Memory, ds: set<Frame>, d: Frame, i: Index) {
    d in ds && i != SELFMAP && m[d][i].present
  }

  /** Neither a directory nor one of their tables. */
  ghost predicate Fresh(m: Memory, ds: set<Frame>, f: Frame) {
    f !in ds && forall d: Frame, i: Index :: Uses(m, ds, d, i) ==> m[d][i].base != f
  }

  /** Every synced space translates the addresses below 256 MB as the kernel does. */
  lemma KernelShared(m: Memory, k: Frame, ds: set<Frame>, d: Frame, v: Addr)
    requires Inv(m, k, ds) && d in ds && v < HIGHMEM
    ensures Walk(m, d, v) == Walk(m, k, v)
  {
    assert DirectoryOk(m, k, ds, d) && DirectoryOk(m, k, ds, k);
    assert Dir(v) < KERNEL_TABLES;
  }

  ghost predicate KernelEntriesKept(m: Memory, m': Memory, k: Frame) {
    forall i: Index :: i < KERNEL_TABLES ==> m'[k][i] == m[k][i]
  }

  /** Whether a page is reached through entry `j` of the table at entry `i` of directory `d`. */
  predicate Hits(d: Frame, i: Index, j: Index, d': Frame, v: Addr) {
    Dir(v) == i && Tbl(v) == j && (d' == d || i < KERNEL_TABLES)
  }

  /**
    Writing one entry of a table changes the translation of that page only, in the space the
    table belongs to, or in all spaces for a kernel table. The self-map window included.
   */
  lemma TableWrite(m: Memory, k: Frame, ds: set<Frame>, d: Frame, i: Index, j: Index, e: Entry)
    requires Inv(m, k, ds) && Uses(m, ds, d, i)
    ensures Inv(Poke(m, m[d][i].base, j, e), k, ds)
    ensures KernelEntriesKept(m, Poke(m, m[d][i].base, j, e), k)
    ensures forall d': Frame, v: Addr :: d' in ds ==>
      Walk(Poke(m, m[d][i].base, j, e), d', v) == if Hits(d, i, j, d', v) then Leaf(e, v) else Walk(m, d', v)
  {
    var m' := Poke(m, m[d][i].base, j, e);
    assert DirectoryOk(m, k, ds, d) && DirectoryOk(m, k, ds, k);
    assert forall d' :: d' in ds ==> m'[d'] == m[d'];
    forall d' | d' in ds ensures DirectoryOk(m', k, ds, d') {
      assert DirectoryOk(m, k, ds, d');
    }
    forall d1: Frame, i1: Index, d2: Frame, j2: Index | Uses(m', ds, d1, i1) && Uses(m', ds, d2, j2) && m'[d1][i1].base == m'[d2][j2].base
      ensures i1 == j2 && (d1 == d2 || i1 < KERNEL_TABLES)
    {
      assert Uses(m, ds, d1, i1) && Uses(m, ds, d2, j2);
    }
    forall d': Frame, v: Addr | d' in ds
      ensures Walk(m', d', v) == if Hits(d, i, j, d', v) then Leaf(e, v) else Walk(m, d', v)
    {
      TableWriteAt(m, k, ds, d, i, j, e, d', v);
    }
  }

  lemma TableWriteAt(m: Memory, k: Frame, ds: set<Frame>, d: Frame, i: Index, j: Index, e: Entry, d': Frame, v: Addr)
    requires Inv(m, k, ds) && Uses(m, ds, d, i) && d' in ds
    ensures Walk(Poke(m, m[d][i].base, j, e), d', v) == if Hits(d, i, j, d', v) then Leaf(e, v) else Walk(m, d', v)
  {
    assert DirectoryOk(m, k, ds, d) && DirectoryOk(m, k, ds, d');
    if Dir(v) != SELFMAP && m[d'][Dir(v)].present {
      assert Uses(m, ds, d', Dir(v));
    }
  }

  // ---------- A new page table ----------

  function Absent(n: nat): (s: seq<Entry>)
    ensures |s| == n && forall i :: 0 <= i < n ==> s[i] == ABSENT
  {
    if n == 0 then [] else [ABSENT] + Absent(n - 1)
  }

  /** Entry `i` of `d` is pointed to frame `f`, which is cleared. */
  function NewTable(m: Memory, d: Frame, i: Index, f: Frame): Memory {
    Poke(m, d, i, Entry(true, f))[f := Absent(ENTRIES)]
  }

  lemma NewTableWalk(m: Memory, k: Frame, ds: set<Frame>, d: Frame, i: Index, f: Frame, d': Frame, v: Addr)
    requires Inv(m, k, ds) && d in ds && i != SELFMAP && !m[d][i].present && Fresh(m, ds, f)
    requires d' in ds && Dir(v) != SELFMAP
    ensures Walk(NewTable(m, d, i, f), d', v) == Walk(m, d', v)
  {
    if m[d'][Dir(v)].present { assert Uses(m, ds, d', Dir(v)); }
    assert DirectoryOk(m, k, ds, d');
  }

  lemma NewTableDirectory(m: Memory, k: Frame, ds: set<Frame>, d: Frame, i: Index, f: Frame, d': Frame)
    requires Inv(m, k, ds) && d in ds && i != SELFMAP && !m[d][i].present && Fresh(m, ds, f) && d' in ds
    ensures DirectoryOk(NewTable(m, d, i, f), k, ds, d')
  {
    assert DirectoryOk(m, k, ds, d) && DirectoryOk(m, k, ds, d') && DirectoryOk(m, k, ds, k);
  }

  lemma NewTableKernel(m: Memory, k: Frame, ds: set<Frame>, d: Frame, i: Index, f: Frame)
    requires Inv(m, k, ds) && d in ds && i != SELFMAP && !m[d][i].present && Fresh(m, ds, f)
    ensures KernelEntriesKept(m, NewTable(m, d, i, f), k)
  {
    assert DirectoryOk(m, k, ds, d);
  }

  lemma NewTableUses(m: Memory, k: Frame, ds: set<Frame>, d: Frame, i: Index, f: Frame, d': Frame, j: Index)
    requires Inv(m, k, ds) && d in ds && i != SELFMAP && !m[d][i].present && Fresh(m, ds, f)
    requires Uses(NewTable(m, d, i, f), ds, d', j)
    ensures
      if d' == d && j == i then NewTable(m, d, i, f)[d'][j].base == f
      else Uses(m, ds, d', j) && NewTable(m, d, i, f)[d'][j] == m[d'][j] && m[d'][j].base != f
  {
  }

  /** A cleared table changes no translation outside the self-map window. */
  lemma NewTableKeeps(m: Memory, k: Frame, ds: set<Frame>, d: Frame, i: Index, f: Frame)
    requires Inv(m, k, ds) && d in ds && i != SELFMAP && !m[d][i].present && Fresh(m, ds, f)
    ensures Inv(NewTable(m, d, i, f), k, ds) && KernelEntriesKept(m, NewTable(m, d, i, f), k)
    ensures forall d': Frame, v: Addr :: d' in ds && Dir(v) != SELFMAP ==>
      Walk(NewTable(m, d, i, f), d', v) == Walk(m, d', v)
  {
    var m' := NewTable(m, d, i, f);
    hide DirectoryOk, Fresh;
    forall d' | d' in ds ensures DirectoryOk(m', k, ds, d') { NewTableDirectory(m, k, ds, d, i, f, d'); }
    NewTableKernel(m, k, ds, d, i, f);
    forall d1: Frame, i1: Index | Uses(m', ds, d1, i1)
      ensures if d1 == d && i1 == i then m'[d1][i1].base == f else Uses(m, ds, d1, i1) && m'[d1][i1] == m[d1][i1] && m[d1][i1].base != f
    {
      NewTableUses(m, k, ds, d, i, f, d1, i1);
    }
    forall d': Frame, v: Addr | d' in ds && Dir(v) != SELFMAP
      ensures Walk(m', d', v) == Walk(m, d', v)
    {
      NewTableWalk(m, k, ds, d, i, f, d', v);
    }
  }

  // ---------- A new address space ----------

  /** vm_sync: the kernel entries, the self map, nothing else. */
  function SyncedTable(m: Memory, k: Frame, f: Frame): Table {
    m[k][..KERNEL_TABLES] + Absent(SELFMAP - KERNEL_TABLES) + [Entry(true, f)]
  }

  function Sync(m: Memory, k: Frame, f: Frame): Memory {
    m[f := SyncedTable(m, k, f)]
  }

  lemma SyncKeeps(m: Memory, k: Frame, ds: set<Frame>, f: Frame)
    requires Inv(m, k, ds) && Fresh(m, ds, f)
    ensures Inv(Sync(m, k, f), k, ds + {f}) && KernelEntriesKept(m, Sync(m, k, f), k)
    ensures forall d: Frame, v: Addr :: d in ds ==> Walk(Sync(m, k, f), d, v) == Walk(m, d, v)
  {
    var m' := Sync(m, k, f);
    forall d | d in ds + {f} ensures DirectoryOk(m', k, ds + {f}, d) {
      assert DirectoryOk(m, k, ds, k);
      if d != f { assert DirectoryOk(m, k, ds, d); }
      forall i: Index | i != SELFMAP && m'[d][i].present ensures m'[d][i].base !in ds + {f} {
        assert Uses(m, ds, if d == f then k else d, i);
      }
    }
    forall d1: Frame, i1: Index, d2: Frame, j2: Index
      | Uses(m', ds + {f}, d1, i1) && Uses(m', ds + {f}, d2, j2) && m'[d1][i1].base == m'[d2][j2].base
      ensures i1 == j2 && (d1 == d2 || i1 < KERNEL_TABLES)
    {
      assert Uses(m, ds, if d1 == f then k else d1, i1);
      assert Uses(m, ds, if d2 == f then k else d2, j2);
    }
    forall d: Frame, v: Addr | d in ds
      ensures Walk(m', d, v) == Walk(m, d, v)
    {
      assert DirectoryOk(m, k, ds, d);
      if Dir(v) != SELFMAP && m[d][Dir(v)].present { assert Uses(m, ds, d, Dir(v)); }
    }
  }

  /** The new space maps what the kernel maps below 256 MB, and outside the window nothing else. */
  lemma SyncWalk(m: Memory, k: Frame, ds: set<Frame>, f: Frame)
    requires Inv(m, k, ds) && Fresh(m, ds, f)
    ensures OnlyIn(m, Sync(m, k, f), f)
    ensures forall v: Addr :: Dir(v) != SELFMAP ==> Walk(Sync(m, k, f), f, v) == if v < HIGHMEM then Walk(m, k, v) else None
  {
    forall v: Addr | Dir(v) != SELFMAP
      ensures Walk(Sync(m, k, f), f, v) == if v < HIGHMEM then Walk(m, k, v) else None
    {
      SyncWalkAt(m, k, ds, f, v);
    }
  }

  lemma SyncWalkAt(m: Memory, k: Frame, ds: set<Frame>, f: Frame, v: Addr)
    requires Inv(m, k, ds) && Fresh(m, ds, f) && Dir(v) != SELFMAP
    ensures Walk(Sync(m, k, f), f, v) == if v < HIGHMEM then Walk(m, k, v) else None
  {
    assert DirectoryOk(m, k, ds, k);
    if v < HIGHMEM {
      assert Dir(v) < KERNEL_TABLES && SyncedTable(m, k, f)[Dir(v)] == m[k][Dir(v)];
      assert Uses(m, ds, k, Dir(v));
    } else {
      assert KERNEL_TABLES <= Dir(v) < SELFMAP && SyncedTable(m, k, f)[Dir(v)] == ABSENT;
    }
  }

  /** Writing a fresh frame is invisible to every space. */
  lemma FreshWrite(m: Memory, k: Frame, ds: set<Frame>, f: Frame, t: Table, d: Frame, v: Addr)
    requires Inv(m, k, ds) && Fresh(m, ds, f) && d in ds
    ensures Walk(m[f := t], d, v) == Walk(m, d, v)
  {
    assert DirectoryOk(m, k, ds, d);
    if Dir(v) != SELFMAP && m[d][Dir(v)].present { assert Uses(m, ds, d, Dir(v)); }
  }

  // ---------- The kernel's own structures ----------

  ghost predicate KernelFrame(m: Memory, k: Frame, f: Frame) {
    f == k || exists i: Index :: i < KERNEL_TABLES && m[k][i].base == f
  }

  /** The kernel directory and the kernel tables are mapped where they are. */
  ghost predicate KernelMapped(m: Memory, k: Frame) {
    forall f: Frame :: KernelFrame(m, k, f) ==> At(f, 0) < HIGHMEM && Walk(m, k, At(f, 0)) == Some(At(f, 0))
  }

  /** A page is mapped or not as a whole. */
  lemma WholePage(m: Memory, d: Frame, f: Frame, off: nat)
    requires off < 0x1000 && Walk(m, d, At(f, 0)) == Some(At(f, 0))
    ensures Walk(m, d, At(f, off)) == Some(At(f, off))
  {
    hide Dir, Tbl, Off, At;
    SameIndices(f, off);
    SameIndices(f, 0);
    SameIndices(m[m[d][Dir(At(f, 0))].base][Tbl(At(f, 0))].base, 0);
  }

  lemma SameIndices(f: Frame, off: nat)
    requires off < 0x1000
    ensures Dir(At(f, off)) == f / ENTRIES && Tbl(At(f, off)) == f % ENTRIES && Off(At(f, off)) == off
    ensures off == 0 ==> At(f, 0) / 0x1000 == f
  {
    assert (f * 0x1000 + off) / 0x1000 == f;
    assert (f * 0x1000 + off) / 0x40_0000 == f / ENTRIES;
  }

  // ---------- Operations ----------

  /** vm_paging_map. */
  function Map(m: Memory, k: Frame, v: Addr, p: Addr): (Memory, bool) {
    var pde := m[k][Dir(v)];
    if Dir(v) == SELFMAP || !pde.present || m[pde.base][Tbl(v)].present then (m, false)
    else (Poke(m, pde.base, Tbl(v), Entry(true, p / 0x1000)), true)
  }

  /** vm_paging_unmap. */
  function Unmap(m: Memory, k: Frame, v: Addr): (Memory, bool) {
    var pde := m[k][Dir(v)];
    if Dir(v) == SELFMAP || !pde.present || !m[pde.base][Tbl(v)].present then (m, false)
    else (Poke(m, pde.base, Tbl(v), ABSENT), true)
  }

  datatype Fault = Unresolvable | Internal | External {
    function Code(): nat {
      match this
      case Unresolvable => 0
      case Internal => 1
      case External => 2
    }
  }

  /** vm_pf_resolvable: bit 0 of the error code tells a protection fault. */
  function Classify(m: Memory, d: Frame, error: nat, v: Addr): Fault {
    var pde := m[d][Dir(v)];
    if error !in {0, 2, 4, 6} || Dir(v) == SELFMAP then Unresolvable
    else if !pde.present then Internal
    else if !m[pde.base][Tbl(v)].present then External
    else Unresolvable
  }

  /** vm_pf_fix. Without a table and without the internal flag it would fault itself. */
  function Fix(m: Memory, d: Frame, v: Addr, p: Addr, flag: nat): (Memory, bool)
    requires Dir(v) == SELFMAP || m[d][Dir(v)].present || flag % 2 == 1
  {
    var pde := m[d][Dir(v)];
    if Dir(v) == SELFMAP then (m, false)
    else if !pde.present then (NewTable(m, d, Dir(v), p / 0x1000), true)
    else if !m[pde.base][Tbl(v)].present && flag / 2 % 2 == 1 then (Poke(m, pde.base, Tbl(v), Entry(true, p / 0x1000)), true)
    else (m, false)
  }

  const RW := 4

  /** The page fault handler: classify, then fix with a frame, the class and write access as flag. */
  function Handle(m: Memory, d: Frame, error: nat, v: Addr, f: Frame): Memory {
    var c := Classify(m, d, error, v);
    if c.Unresolvable? then m else Fix(m, d, v, At(f, 0), c.Code() + RW).0
  }

  lemma FrameOf(f: Frame)
    ensures At(f, 0) / 0x1000 == f
  {
  }

  // ---------- What each operation does to the translations ----------

  /** No frame but `f` is written. */
  ghost predicate OnlyIn(m: Memory, m': Memory, f: Frame) {
    forall g: Frame :: g != f ==> m'[g] == m[g]
  }

  /** No word of memory but entry `i` of frame `f` is written. */
  ghost predicate OnlyEntry(m: Memory, m': Memory, f: Frame, i: Index) {
    OnlyIn(m, m', f) && forall j: Index :: j != i ==> m'[f][j] == m[f][j]
  }

  /** The page a fault or a mapping is about, in a space, given the space whose table is written. */
  predicate SamePage(d: Frame, v: Addr, d': Frame, w: Addr) {
    Hits(d, Dir(v), Tbl(v), d', w)
  }

  lemma MapWalk(m: Memory, k: Frame, ds: set<Frame>, v: Addr, p: Addr)
    requires Inv(m, k, ds)
    ensures var (m', ok) := Map(m, k, v, p);
      && Inv(m', k, ds) && KernelEntriesKept(m, m', k)
      && (ok <==> Dir(v) != SELFMAP && m[k][Dir(v)].present && Walk(m, k, v).None?)
      && (!ok ==> m' == m)
      && (ok ==> OnlyEntry(m, m', m[k][Dir(v)].base, Tbl(v)))
      && (ok ==> forall d: Frame, w: Addr :: d in ds ==>
            Walk(m', d, w) == if SamePage(k, v, d, w) then Some(At(p / 0x1000, Off(w))) else Walk(m, d, w))
  {
    if Map(m, k, v, p).1 { TableWrite(m, k, ds, k, Dir(v), Tbl(v), Entry(true, p / 0x1000)); }
  }

  lemma UnmapWalk(m: Memory, k: Frame, ds: set<Frame>, v: Addr)
    requires Inv(m, k, ds)
    ensures var (m', ok) := Unmap(m, k, v);
      && Inv(m', k, ds) && KernelEntriesKept(m, m', k)
      && (ok <==> Dir(v) != SELFMAP && Walk(m, k, v).Some?)
      && (!ok ==> m' == m)
      && (ok ==> OnlyEntry(m, m', m[k][Dir(v)].base, Tbl(v)))
      && (ok ==> forall d: Frame, w: Addr :: d in ds ==>
            Walk(m', d, w) == if SamePage(k, v, d, w) then None else Walk(m, d, w))
  {
    if Unmap(m, k, v).1 { TableWrite(m, k, ds, k, Dir(v), Tbl(v), ABSENT); }
  }

  /** The four error codes of a page that is not present: read or write, by the system or a program. */
  predicate NotPresent(error: nat) {
    error == 0 || error == 2 || error == 4 || error == 6
  }

  /** What the class of a fault means. */
  lemma ClassExact(m: Memory, d: Frame, error: nat, v: Addr)
    ensures Classify(m, d, error, v) == Unresolvable <==> !NotPresent(error) || Dir(v) == SELFMAP || Walk(m, d, v).Some?
    ensures Classify(m, d, error, v) == Internal <==> NotPresent(error) && Dir(v) != SELFMAP && !m[d][Dir(v)].present
    ensures Classify(m, d, error, v) == External <==>
            NotPresent(error) && Dir(v) != SELFMAP && m[d][Dir(v)].present && Walk(m, d, v).None?
  {
  }

  /** When the fix succeeds, and what it writes then. */
  lemma FixExact(m: Memory, d: Frame, v: Addr, p: Addr, flag: nat)
    requires (Dir(v) == SELFMAP || m[d][Dir(v)].present || flag % 2 == 1) && p / 0x1000 != d
    ensures var (m', ok) := Fix(m, d, v, p, flag); var f: Frame := p / 0x1000;
      && (ok <==> Dir(v) != SELFMAP && Walk(m, d, v).None? && (m[d][Dir(v)].present ==> flag / 2 % 2 == 1))
      && (!ok ==> m' == m)
      && (ok && m[d][Dir(v)].present ==>
            OnlyEntry(m, m', m[d][Dir(v)].base, Tbl(v)) && m'[m[d][Dir(v)].base][Tbl(v)] == Entry(true, f))
      && (ok && !m[d][Dir(v)].present ==>
            m'[d][Dir(v)] == Entry(true, f) && (forall j: Index :: m'[f][j] == ABSENT) && OnlyEntry(m, m'[f := m[f]], d, Dir(v)))
  {
  }

  /** A protection fault, one in the self-map window and one on a page that is there change nothing at all. */
  lemma RefusedFault(m: Memory, d: Frame, error: nat, v: Addr, f: Frame)
    requires !NotPresent(error) || Dir(v) == SELFMAP || Walk(m, d, v).Some?
    ensures Handle(m, d, error, v, f) == m
  {
  }

  lemma ExternalIs(m: Memory, d: Frame, error: nat, v: Addr, f: Frame)
    requires NotPresent(error) && Dir(v) != SELFMAP && m[d][Dir(v)].present && Walk(m, d, v).None?
    ensures Handle(m, d, error, v, f) == Poke(m, m[d][Dir(v)].base, Tbl(v), Entry(true, f))
  {
    FrameOf(f);
  }

  /** If the table is there but the page is not, the handler maps the page to the frame and changes no other. */
  lemma ExternalWalk(m: Memory, k: Frame, ds: set<Frame>, d: Frame, error: nat, v: Addr, f: Frame)
    requires Inv(m, k, ds) && d in ds
    requires NotPresent(error) && Dir(v) != SELFMAP && m[d][Dir(v)].present && Walk(m, d, v).None?
    ensures var m' := Handle(m, d, error, v, f);
      && Inv(m', k, ds) && KernelEntriesKept(m, m', k) && OnlyEntry(m, m', m[d][Dir(v)].base, Tbl(v))
      && forall d': Frame, w: Addr :: d' in ds ==>
           Walk(m', d', w) == if SamePage(d, v, d', w) then Some(At(f, Off(w))) else Walk(m, d', w)
  {
    hide Handle, Inv, Walk;
    ExternalIs(m, d, error, v, f);
    TableWrite(m, k, ds, d, Dir(v), Tbl(v), Entry(true, f));
  }

  /** If the table is missing, it only adds an empty one. */
  lemma InternalWalk(m: Memory, k: Frame, ds: set<Frame>, d: Frame, error: nat, v: Addr, f: Frame)
    requires Inv(m, k, ds) && d in ds && Fresh(m, ds, f)
    requires NotPresent(error) && Dir(v) != SELFMAP && !m[d][Dir(v)].present
    ensures var m' := Handle(m, d, error, v, f);
      && Inv(m', k, ds) && KernelEntriesKept(m, m', k)
      && m'[d][Dir(v)] == Entry(true, f) && (forall j: Index :: m'[f][j] == ABSENT)
      && OnlyEntry(m, m'[f := m[f]], d, Dir(v))
      && forall d': Frame, w: Addr :: d' in ds && Dir(w) != SELFMAP ==> Walk(m', d', w) == Walk(m, d', w)
  {
    FrameOf(f);
    NewTableKeeps(m, k, ds, d, Dir(v), f);
  }

  /** Any unmapped address outside the self-map window is mapped after at most two rounds of the handler. */
  lemma TwoRounds(m: Memory, k: Frame, ds: set<Frame>, d: Frame, error: nat, v: Addr, f: Frame, f': Frame)
    requires Inv(m, k, ds) && d in ds && NotPresent(error) && Dir(v) != SELFMAP && Walk(m, d, v).None? && Fresh(m, ds, f)
    ensures var m1 := Handle(m, d, error, v, f);
      var m2 := Handle(m1, d, error, v, f');
      var m' := if Walk(m1, d, v).Some? then m1 else m2;
      var frame := if Walk(m1, d, v).Some? then f else f';
      && Inv(m', k, ds) && KernelEntriesKept(m, m', k)
      && Walk(m', d, v) == Some(At(frame, Off(v)))
      && forall d': Frame, w: Addr :: d' in ds && Dir(w) != SELFMAP && !SamePage(d, v, d', w) ==>
           Walk(m', d', w) == Walk(m, d', w)
  {
    var m1 := Handle(m, d, error, v, f);
    if m[d][Dir(v)].present {
      ExternalWalk(m, k, ds, d, error, v, f);
    } else {
      InternalWalk(m, k, ds, d, error, v, f);
      assert DirectoryOk(m1, k, ds, d);
      assert Walk(m1, d, v).None?;
      ExternalWalk(m1, k, ds, d, error, v, f');
    }
  }
}
