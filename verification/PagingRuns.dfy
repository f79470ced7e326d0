/** Address spaces over every sequence of mappings, synchronizations, switches and page faults. */
module PagingRuns {
  import opened Machine
  import opened SeqLists
  import opened Paging

  /** The memory, the current directory, and all directories in use. */
  datatype State = State(m: Memory, cr3: Frame, ds: set<Frame>)

  datatype Action =
    | MapPage(v: Addr, p: Addr)
    | UnmapPage(v: Addr)
    | SyncSpace(pd: Addr)
    | SwitchTo(pd: Addr)
    | PageFault(error: nat, v: Addr, frame: Frame)

  ghost predicate Safe(s: State, k: Frame) {
    Inv(s.m, k, s.ds) && s.cr3 in s.ds && KernelMapped(s.m, k)
  }

  /** The kernel's table for the page, if there is one, is mapped where it is: its physical address is a pointer to it. */
  predicate TableSeen(s: State, k: Frame, v: Addr) {
    var pde := s.m[k][Dir(v)];
    Dir(v) != SELFMAP && pde.present ==> Walk(s.m, s.cr3, At(pde.base, 0)) == Some(At(pde.base, 0))
  }

  /** Switching to a page that is not mapped, or mapped at physical address 0, fails. */
  predicate Refused(s: State, pd: Addr) {
    match Walk(s.m, s.cr3, pd)
    case Some(p) => p == 0
    case None => true
  }

  /**
    What the callers see to: the table of a page to be mapped is seen, which it always is
    below 256 MB, the kernel never unmaps its own tables, a new directory is a whole page in
    a frame of its own, only directories are switched to, and the frames handed to the fault
    handler are not in use as directories or tables.
   */
  ghost predicate Enabled(s: State, k: Frame, a: Action) {
    match a
    case MapPage(v, _) => TableSeen(s, k, v)
    case UnmapPage(v) => TableSeen(s, k, v) && forall f: Frame :: KernelFrame(s.m, k, f) ==> v / 0x1000 != f
    case SyncSpace(pd) =>
      pd != 0 ==> Off(pd) == 0 && Walk(s.m, s.cr3, pd).Some? && Fresh(s.m, s.ds, Walk(s.m, s.cr3, pd).value / 0x1000)
    case SwitchTo(pd) => !Refused(s, pd) ==> Walk(s.m, s.cr3, pd).value / 0x1000 in s.ds
    case PageFault(_, _, f) => Fresh(s.m, s.ds, f)
  }

  function Physical(s: State, v: Addr): Frame {
    match Walk(s.m, s.cr3, v)
    case Some(p) => p / 0x1000
    case None => 0
  }

  function Step(s: State, k: Frame, a: Action): State {
    match a
    case MapPage(v, p) => s.(m := Map(s.m, k, v, p).0)
    case UnmapPage(v) => s.(m := Unmap(s.m, k, v).0)
    case SyncSpace(pd) => if pd == 0 then s else s.(m := Sync(s.m, k, Physical(s, pd)), ds := s.ds + {Physical(s, pd)})
    case SwitchTo(pd) => if Refused(s, pd) then s else s.(cr3 := Physical(s, pd))
    case PageFault(e, v, f) => s.(m := Handle(s.m, s.cr3, e, v, f))
  }

  /** What keeps the kernel directory's entries and every translation below 256 MB that exists. */
  lemma StillMapped(m: Memory, m': Memory, k: Frame, ds: set<Frame>, ds': set<Frame>)
    requires Inv(m, k, ds) && Inv(m', k, ds') && KernelMapped(m, k)
    requires KernelEntriesKept(m, m', k)
    requires forall f: Frame :: KernelFrame(m, k, f) && Walk(m, k, At(f, 0)) == Some(At(f, 0)) ==>
      Walk(m', k, At(f, 0)) == Walk(m, k, At(f, 0))
    ensures KernelMapped(m', k)
  {
    forall f: Frame | KernelFrame(m', k, f)
      ensures At(f, 0) < HIGHMEM && Walk(m', k, At(f, 0)) == Some(At(f, 0))
    {
      assert KernelFrame(m, k, f);
    }
  }

  /** The kernel's own tables, those of the first 256 MB, are always seen. */
  lemma KernelTableSeen(s: State, k: Frame, v: Addr)
    requires Safe(s, k) && v < HIGHMEM
    ensures TableSeen(s, k, v)
  {
    var f := s.m[k][Dir(v)].base;
    assert Dir(v) < KERNEL_TABLES;
    assert KernelFrame(s.m, k, f);
    KernelShared(s.m, k, s.ds, s.cr3, At(f, 0));
  }

  /**
    A fault above 256 MB in the kernel's own space adds a table to the kernel's directory,
    and that table is seen exactly if its frame was mapped where it is.
   */
  lemma FaultTableSeen(s: State, k: Frame, error: nat, v: Addr, f: Frame)
    requires Safe(s, k) && s.cr3 == k && Fresh(s.m, s.ds, f) && Dir(At(f, 0)) != SELFMAP
    requires Classify(s.m, k, error, v) == Internal
    ensures var s' := Step(s, k, PageFault(error, v, f));
      && Safe(s', k) && s'.m[k][Dir(v)] == Entry(true, f)
      && (TableSeen(s', k, v) <==> Walk(s.m, k, At(f, 0)) == Some(At(f, 0)))
  {
    FaultSafe(s, k, error, v, f);
    InternalWalk(s.m, k, s.ds, k, error, v, f);
    FrameOf(f);
    hide Safe, Inv, Walk, Fresh, KernelEntriesKept;
  }

  lemma MapSafe(s: State, k: Frame, v: Addr, p: Addr)
    requires Safe(s, k)
    ensures Safe(Step(s, k, MapPage(v, p)), k)
  {
    MapWalk(s.m, k, s.ds, v, p);
    var m' := Map(s.m, k, v, p).0;
    forall f: Frame | KernelFrame(s.m, k, f) && Walk(s.m, k, At(f, 0)) == Some(At(f, 0))
      ensures Walk(m', k, At(f, 0)) == Walk(s.m, k, At(f, 0))
    {
      if SamePage(k, v, k, At(f, 0)) { SameLeaf(s.m, k, v, At(f, 0)); }
    }
    StillMapped(s.m, m', k, s.ds, s.ds);
  }

  lemma SameLeaf(m: Memory, d: Frame, v: Addr, w: Addr)
    requires Dir(v) == Dir(w) && Tbl(v) == Tbl(w)
    ensures Walk(m, d, v).Some? <==> Walk(m, d, w).Some?
  {
  }

  lemma UnmapSafe(s: State, k: Frame, v: Addr)
    requires Safe(s, k) && Enabled(s, k, UnmapPage(v))
    ensures Safe(Step(s, k, UnmapPage(v)), k)
  {
    UnmapWalk(s.m, k, s.ds, v);
    var m' := Unmap(s.m, k, v).0;
    forall f: Frame | KernelFrame(s.m, k, f) && Walk(s.m, k, At(f, 0)) == Some(At(f, 0))
      ensures Walk(m', k, At(f, 0)) == Walk(s.m, k, At(f, 0))
    {
      if SamePage(k, v, k, At(f, 0)) { SamePageNumber(v, f); }
    }
    StillMapped(s.m, m', k, s.ds, s.ds);
  }

  lemma SamePageNumber(v: Addr, f: Frame)
    requires Dir(v) == Dir(At(f, 0)) && Tbl(v) == Tbl(At(f, 0))
    ensures v / 0x1000 == f
  {
    PageNumber(v);
    PageNumber(At(f, 0));
  }

  lemma PageNumber(v: Addr)
    ensures v / 0x1000 == Dir(v) * ENTRIES + Tbl(v)
  {
  }

  lemma SyncSafe(s: State, k: Frame, pd: Addr)
    requires Safe(s, k) && Enabled(s, k, SyncSpace(pd))
    ensures Safe(Step(s, k, SyncSpace(pd)), k)
  {
    if pd != 0 {
      var f := Physical(s, pd);
      SyncKeeps(s.m, k, s.ds, f);
      StillMapped(s.m, Sync(s.m, k, f), k, s.ds, s.ds + {f});
    }
  }

  /** A page that is mapped is not the one whose page is missing. */
  lemma NotMissing(m: Memory, d: Frame, error: nat, v: Addr, w: Addr)
    requires Classify(m, d, error, v).External? && Walk(m, d, w).Some?
    ensures Dir(v) != Dir(w) || Tbl(v) != Tbl(w)
  {
  }

  lemma FaultSafe(s: State, k: Frame, error: nat, v: Addr, f: Frame)
    requires Safe(s, k) && Fresh(s.m, s.ds, f)
    ensures Safe(Step(s, k, PageFault(error, v, f)), k)
  {
    var m' := Handle(s.m, s.cr3, error, v, f);
    match Classify(s.m, s.cr3, error, v)
    case Unresolvable =>
    case Internal =>
      InternalWalk(s.m, k, s.ds, s.cr3, error, v, f);
      assert forall g: Frame :: At(g, 0) < HIGHMEM ==> Dir(At(g, 0)) != SELFMAP;
      StillMapped(s.m, m', k, s.ds, s.ds);
    case External =>
      ExternalWalk(s.m, k, s.ds, s.cr3, error, v, f);
      forall g: Frame | KernelFrame(s.m, k, g) && Walk(s.m, k, At(g, 0)) == Some(At(g, 0))
        ensures Walk(m', k, At(g, 0)) == Walk(s.m, k, At(g, 0))
      {
        KernelShared(s.m, k, s.ds, s.cr3, At(g, 0));
        NotMissing(s.m, s.cr3, error, v, At(g, 0));
      }
      StillMapped(s.m, m', k, s.ds, s.ds);
  }

  lemma StepSafe(s: State, k: Frame, a: Action)
    requires Safe(s, k) && Enabled(s, k, a)
    ensures Safe(Step(s, k, a), k)
  {
    match a
    case MapPage(v, p) => MapSafe(s, k, v, p);
    case UnmapPage(v) => UnmapSafe(s, k, v);
    case SyncSpace(pd) => SyncSafe(s, k, pd);
    case SwitchTo(pd) =>
    case PageFault(e, v, f) => FaultSafe(s, k, e, v, f);
  }

  ghost predicate IsRun(k: Frame, trace: seq<State>, acts: seq<Action>) {
    && |trace| == |acts| + 1
    && forall i :: 0 <= i < |acts| ==> Enabled(trace[i], k, acts[i]) && trace[i + 1] == Step(trace[i], k, acts[i])
  }

  /**
    Over every run all address spaces agree with the kernel's below 256 MB, and the kernel
    reaches its own tables at their physical addresses in each of them.
   */
  lemma RunShares(k: Frame, trace: seq<State>, acts: seq<Action>, d: Frame, v: Addr)
    requires IsRun(k, trace, acts) && Safe(trace[0], k) && v < HIGHMEM && d in trace[|acts|].ds
    ensures var s := trace[|acts|];
      && Walk(s.m, d, v) == Walk(s.m, k, v)
      && (KernelFrame(s.m, k, v / 0x1000) ==> Walk(s.m, d, v) == Some(v))
  {
    RunSafe(k, trace, acts);
    var s := trace[|acts|];
    KernelShared(s.m, k, s.ds, d, v);
    if KernelFrame(s.m, k, v / 0x1000) {
      assert v == At(v / 0x1000, Off(v));
      WholePage(s.m, k, v / 0x1000, Off(v));
    }
  }

  lemma {:induction false} RunSafe(k: Frame, trace: seq<State>, acts: seq<Action>)
    requires IsRun(k, trace, acts) && Safe(trace[0], k)
    ensures Safe(trace[|acts|], k)
    decreases |acts|
  {
    if acts != [] {
      var n := |acts| - 1;
      RunSafe(k, trace[..n + 1], acts[..n]);
      StepSafe(trace[n], k, acts[n]);
    }
  }

  /** A fault that is not about a missing page, or is in the self-map window, leaves everything as it is. */
  lemma RefusedStep(s: State, k: Frame, error: nat, v: Addr, f: Frame)
    requires !NotPresent(error) || Dir(v) == SELFMAP || Walk(s.m, s.cr3, v).Some?
    ensures Step(s, k, PageFault(error, v, f)) == s
  {
    RefusedFault(s.m, s.cr3, error, v, f);
  }

  /** Two spaces that reach a page through the same table map it alike. */
  lemma SharedPage(m: Memory, k: Frame, ds: set<Frame>, d: Frame, v: Addr, d': Frame, w: Addr)
    requires Inv(m, k, ds) && d in ds && d' in ds && SamePage(d, v, d', w)
    ensures Walk(m, d, v).Some? <==> Walk(m, d', w).Some?
  {
    assert DirectoryOk(m, k, ds, d) && DirectoryOk(m, k, ds, d');
  }

  ghost predicate Unmaps(a: Action, v: Addr) {
    a.UnmapPage? && a.v / 0x1000 == v / 0x1000
  }

  /** The action may give the page a place: it is mapped, or a fault on it is fixed. */
  ghost predicate Maps(a: Action, v: Addr) {
    (a.MapPage? || a.PageFault?) && a.v / 0x1000 == v / 0x1000
  }

  /** Nothing that happens may change where the page is. */
  ghost predicate Leaves(a: Action, w: Addr, mapped: bool) {
    !Unmaps(a, w) && (mapped || !Maps(a, w))
  }

  lemma PageSame(v: Addr, w: Addr)
    ensures Dir(v) == Dir(w) && Tbl(v) == Tbl(w) <==> v / 0x1000 == w / 0x1000
  {
    PageNumber(v);
    PageNumber(w);
  }

  lemma FaultKeeps(s: State, k: Frame, error: nat, v: Addr, f: Frame, d: Frame, w: Addr)
    requires Safe(s, k) && Fresh(s.m, s.ds, f) && d in s.ds && Dir(w) != SELFMAP
    requires Walk(s.m, d, w).Some? || v / 0x1000 != w / 0x1000
    ensures Walk(Handle(s.m, s.cr3, error, v, f), d, w) == Walk(s.m, d, w)
  {
    PageSame(v, w);
    if !NotPresent(error) || Dir(v) == SELFMAP || Walk(s.m, s.cr3, v).Some? {
      RefusedFault(s.m, s.cr3, error, v, f);
    } else if s.m[s.cr3][Dir(v)].present {
      ExternalWalk(s.m, k, s.ds, s.cr3, error, v, f);
      if SamePage(s.cr3, v, d, w) { SharedPage(s.m, k, s.ds, s.cr3, v, d, w); }
    } else {
      InternalWalk(s.m, k, s.ds, s.cr3, error, v, f);
    }
  }

  lemma StepMapped(s: State, k: Frame, a: Action, d: Frame, w: Addr)
    requires Safe(s, k) && Enabled(s, k, a) && Leaves(a, w, Walk(s.m, d, w).Some?)
    requires d in s.ds && Dir(w) != SELFMAP
    ensures d in Step(s, k, a).ds && Walk(Step(s, k, a).m, d, w) == Walk(s.m, d, w)
  {
    match a
    case MapPage(v, p) =>
      MapWalk(s.m, k, s.ds, v, p);
      PageSame(v, w);
      if SamePage(k, v, d, w) { SharedPage(s.m, k, s.ds, k, v, d, w); }
    case UnmapPage(v) =>
      UnmapWalk(s.m, k, s.ds, v);
      PageSame(v, w);
    case SyncSpace(pd) => if pd != 0 { SyncKeeps(s.m, k, s.ds, Physical(s, pd)); }
    case SwitchTo(pd) =>
    case PageFault(e, v, f) => FaultKeeps(s, k, e, v, f, d, w);
  }

  /**
    Over every run an address that is mapped in a space stays mapped there, and to the same
    place, until its page is unmapped: no mapping, fault, synchronization or switch moves it.
    One that is not mapped stays so until its page is mapped or faults.
   */
  lemma {:induction false} PlaceStays(k: Frame, trace: seq<State>, acts: seq<Action>, i: nat, d: Frame, w: Addr)
    requires IsRun(k, trace, acts) && Safe(trace[0], k) && i < |trace|
    requires d in trace[0].ds && Dir(w) != SELFMAP
    requires forall j :: 0 <= j < i ==> Leaves(acts[j], w, Walk(trace[0].m, d, w).Some?)
    ensures Safe(trace[i], k) && d in trace[i].ds && Walk(trace[i].m, d, w) == Walk(trace[0].m, d, w)
  {
    if i > 0 {
      hide Safe, Enabled, Step, Walk;
      PlaceStays(k, trace, acts, i - 1, d, w);
      StepSafe(trace[i - 1], k, acts[i - 1]);
      StepMapped(trace[i - 1], k, acts[i - 1], d, w);
    }
  }
}
