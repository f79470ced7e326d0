/** The memory map sanitizer in place: node pool, map array, kern/arch/x86/e820.c. */
module E820 {
  import opened Machine
  import opened SeqLists
  import opened E820Sort
  import opened T = E820Tree

  /** A node of the pool. The sons are named by their place in the pool. */
  datatype Cell = Cell(min: int, max: int, typ: nat, left: Option<nat>, right: Option<nat>)

  function Rank(used: nat, k: Option<nat>): nat {
    if k.Some? && k.value < used then used - k.value else 0
  }

  /** The places reached from `k`; sons were allocated after their parent. */
  ghost function Nodes(c: seq<Cell>, used: nat, k: Option<nat>): set<nat>
    decreases Rank(used, k)
  {
    if k.Some? && k.value < used <= |c| && After(c[k.value].left, k.value, used) && After(c[k.value].right, k.value, used)
    then {k.value} + Nodes(c, used, c[k.value].left) + Nodes(c, used, c[k.value].right)
    else {}
  }

  predicate After(s: Option<nat>, k: nat, used: nat) {
    s.Some? ==> k < s.value < used
  }

  /** A tree: no place is reached twice. */
  ghost predicate Sound(c: seq<Cell>, used: nat, k: Option<nat>)
    decreases Rank(used, k)
  {
    k.Some? ==>
      && k.value < used <= |c|
      && After(c[k.value].left, k.value, used) && After(c[k.value].right, k.value, used)
      && Sound(c, used, c[k.value].left) && Sound(c, used, c[k.value].right)
      && Nodes(c, used, c[k.value].left) !! Nodes(c, used, c[k.value].right)
  }

  ghost function AsTree(c: seq<Cell>, used: nat, k: Option<nat>): (t: Tree)
    requires Sound(c, used, k)
    ensures t.Node? <==> k.Some?
    decreases Rank(used, k)
  {
    if k.None? then Leaf
    else
      var n := c[k.value];
      Node(AsTree(c, used, n.left), n.min, n.max, n.typ, AsTree(c, used, n.right))
  }

  lemma {:induction false} NodesBounds(c: seq<Cell>, used: nat, k: Option<nat>)
    requires Sound(c, used, k)
    ensures forall i :: i in Nodes(c, used, k) ==> k.Some? && k.value <= i < used
    ensures k.Some? ==> k.value in Nodes(c, used, k)
    decreases Rank(used, k)
  {
    if k.Some? {
      NodesBounds(c, used, c[k.value].left);
      NodesBounds(c, used, c[k.value].right);
    }
  }

  /** Only the cells of its own nodes matter to a tree. */
  lemma {:induction false} Unaffected(c: seq<Cell>, used: nat, k: Option<nat>, c': seq<Cell>, used': nat)
    requires Sound(c, used, k) && used <= used' <= |c'|
    requires forall i :: i in Nodes(c, used, k) ==> i < |c| && i < |c'| && c'[i] == c[i]
    ensures Sound(c', used', k) && Nodes(c', used', k) == Nodes(c, used, k)
    ensures AsTree(c', used', k) == AsTree(c, used, k)
    decreases Rank(used, k)
  {
    if k.Some? {
      NodesBounds(c, used, k);
      Unaffected(c, used, c[k.value].left, c', used');
      Unaffected(c, used, c[k.value].right, c', used');
    }
  }

  /** As many nodes as places, so never more than the pool has handed out. */
  lemma {:induction false} CountBound(c: seq<Cell>, used: nat, k: Option<nat>)
    requires Sound(c, used, k)
    ensures Count(AsTree(c, used, k)) == |Nodes(c, used, k)| <= used
    decreases Rank(used, k)
  {
    NodesBounds(c, used, k);
    if k.Some? {
      var l, r := c[k.value].left, c[k.value].right;
      CountBound(c, used, l);
      CountBound(c, used, r);
      NodesBounds(c, used, l);
      NodesBounds(c, used, r);
    }
    SizeBelow(Nodes(c, used, k), used);
  }

  /** Subtree `k` became tree `t'` at `k'`, in its own places and freshly allocated ones only. */
  ghost predicate Grown(c: seq<Cell>, used: nat, k: Option<nat>, c': seq<Cell>, used': nat, k': Option<nat>, t': Tree)
    requires Sound(c, used, k)
  {
    && used <= used' <= |c'| == |c|
    && Sound(c', used', k') && AsTree(c', used', k') == t'
    && (forall i :: i in Nodes(c', used', k') ==> i in Nodes(c, used, k) || used <= i < used')
    && (forall i :: 0 <= i < used && i !in Nodes(c, used, k) ==> c'[i] == c[i])
    && k' == if k.Some? then k else Some(used)
  }

  lemma GrownFirst(c: seq<Cell>, used: nat, cell: Cell)
    requires used < |c| && cell.left.None? && cell.right.None?
    ensures Grown(c, used, None, c[used := cell], used + 1, Some(used), Node(Leaf, cell.min, cell.max, cell.typ, Leaf))
  {
    var c' := c[used := cell];
    assert Sound(c', used + 1, None) && Nodes(c', used + 1, None) == {} && AsTree(c', used + 1, None) == Leaf;
  }

  lemma GrownSame(c: seq<Cell>, used: nat, k: Option<nat>)
    requires k.Some? && Sound(c, used, k)
    ensures Grown(c, used, k, c, used, k, AsTree(c, used, k))
  {
  }

  lemma GrownTwice(c: seq<Cell>, used: nat, k: Option<nat>, c': seq<Cell>, used': nat, t': Tree,
                   c'': seq<Cell>, used'': nat, t'': Tree)
    requires k.Some? && Sound(c, used, k)
    requires Grown(c, used, k, c', used', k, t') && Grown(c', used', k, c'', used'', k, t'')
    ensures Grown(c, used, k, c'', used'', k, t'')
  {
    hide Sound, AsTree, Nodes;
  }

  lemma Parts(c: seq<Cell>, used: nat, k: nat)
    requires Sound(c, used, Some(k))
    ensures k < used <= |c|
    ensures Sound(c, used, c[k].left) && Sound(c, used, c[k].right)
    ensures After(c[k].left, k, used) && After(c[k].right, k, used)
    ensures AsTree(c, used, Some(k)) ==
            Node(AsTree(c, used, c[k].left), c[k].min, c[k].max, c[k].typ, AsTree(c, used, c[k].right))
    ensures Nodes(c, used, Some(k)) == {k} + Nodes(c, used, c[k].left) + Nodes(c, used, c[k].right)
    ensures k !in Nodes(c, used, c[k].left) && k !in Nodes(c, used, c[k].right)
    ensures Nodes(c, used, c[k].left) !! Nodes(c, used, c[k].right)
  {
    NodesBounds(c, used, c[k].left);
    NodesBounds(c, used, c[k].right);
  }

  /** The converse of Parts. */
  lemma Whole(c: seq<Cell>, used: nat, k: nat)
    requires k < used <= |c| && After(c[k].left, k, used) && After(c[k].right, k, used)
    requires Sound(c, used, c[k].left) && Sound(c, used, c[k].right)
    requires Nodes(c, used, c[k].left) !! Nodes(c, used, c[k].right)
    ensures Sound(c, used, Some(k))
    ensures AsTree(c, used, Some(k)) ==
            Node(AsTree(c, used, c[k].left), c[k].min, c[k].max, c[k].typ, AsTree(c, used, c[k].right))
    ensures Nodes(c, used, Some(k)) == {k} + Nodes(c, used, c[k].left) + Nodes(c, used, c[k].right)
  {
  }

  function WithLeft(t: Tree, l: Tree): Tree {
    if t.Node? then t.(left := l) else t
  }

  function WithRight(t: Tree, r: Tree): Tree {
    if t.Node? then t.(right := r) else t
  }

  lemma GrownLeft(c: seq<Cell>, used: nat, k: nat, c': seq<Cell>, used': nat, left: Option<nat>, t': Tree)
    requires Sound(c, used, Some(k)) && k < |c| <= |c'| && Sound(c, used, c[k].left)
    requires Grown(c, used, c[k].left, c', used', left, t')
    ensures Grown(c, used, Some(k), c'[k := c'[k].(left := left)], used', Some(k), WithLeft(AsTree(c, used, Some(k)), t'))
  {
    hide Sound, Nodes, AsTree;
    var r := c'[k := c'[k].(left := left)];
    Parts(c, used, k);
    NodesBounds(c', used', left);
    NodesBounds(c, used, c[k].left);
    NodesBounds(c, used, c[k].right);
    Unaffected(c', used', left, r, used');
    Unaffected(c, used, c[k].right, r, used');
    assert r[k] == c[k].(left := left);
    Whole(r, used', k);
  }

  lemma GrownRight(c: seq<Cell>, used: nat, k: nat, c': seq<Cell>, used': nat, right: Option<nat>, t': Tree)
    requires Sound(c, used, Some(k)) && k < |c| <= |c'| && Sound(c, used, c[k].right)
    requires Grown(c, used, c[k].right, c', used', right, t')
    ensures Grown(c, used, Some(k), c'[k := c'[k].(right := right)], used', Some(k), WithRight(AsTree(c, used, Some(k)), t'))
  {
    hide Sound, Nodes, AsTree;
    var r := c'[k := c'[k].(right := right)];
    Parts(c, used, k);
    NodesBounds(c', used', right);
    NodesBounds(c, used, c[k].right);
    NodesBounds(c, used, c[k].left);
    Unaffected(c', used', right, r, used');
    Unaffected(c, used, c[k].left, r, used');
    assert r[k] == c[k].(right := right);
    Whole(r, used', k);
  }

  function Added(t: Tree, t': Tree): int {
    Count(t') - Count(t)
  }

  /** The tree after the left half of an insertion, and after the right half. */
  function LeftDone(t: Tree, min: int, max: int, typ: nat): (t': Tree)
    requires t.Node?
    ensures t'.Node?
  {
    if min < t.min then t.(left := T.Insert(t.left, min, if t.min > max then max else t.min - 1, typ)) else t
  }

  function RightDone(t: Tree, min: int, max: int, typ: nat): (t': Tree)
    requires t.Node?
    ensures t'.Node?
  {
    if max > t.max then t.(right := T.Insert(t.right, if t.max < min then min else t.max + 1, max, typ)) else t
  }

  lemma CountSons(t: Tree)
    requires t.Node?
    ensures Count(t) == 1 + Count(t.left) + Count(t.right)
  {
  }

  lemma BothDone(t: Tree, min: int, max: int, typ: nat)
    requires t.Node?
    ensures T.Insert(t, min, max, typ) == RightDone(LeftDone(t, min, max, typ), min, max, typ)
    ensures Count(t) <= Count(LeftDone(t, min, max, typ)) <= Count(T.Insert(t, min, max, typ))
  {
    hide Count;
    InsertCounts(t.left, min, if t.min > max then max else t.min - 1, typ);
    InsertCounts(t.right, if t.max < min then min else t.max + 1, max, typ);
    CountSons(t);
    CountSons(LeftDone(t, min, max, typ));
    CountSons(T.Insert(t, min, max, typ));
  }

  /** How many places can still come after this one. */
  function Room(k: Option<nat>): nat {
    if k.Some? && k.value < MMAP_MAX then MMAP_MAX - k.value else 0
  }

  class Pool {
    const cells: array<Cell>
    var used: nat

    ghost predicate Valid()
      reads this, cells
    {
      used <= cells.Length == MMAP_MAX
    }

    constructor ()
      ensures Valid() && used == 0 && fresh(cells)
    {
      cells := new Cell[MMAP_MAX];
      used := 0;
    }

    ghost predicate Holds(k: Option<nat>)
      reads this, cells
    {
      Valid() && Sound(cells[..], used, k)
    }

    ghost function Tree(k: Option<nat>): Tree
      reads this, cells
      requires Holds(k)
    {
      AsTree(cells[..], used, k)
    }

    method Alloc() returns (k: Option<nat>)
      requires Valid()
      modifies this`used
      ensures Valid()
      ensures old(used) < MMAP_MAX ==> k == Some(old(used)) && used == old(used) + 1
      ensures old(used) == MMAP_MAX ==> k == None && used == old(used)
    {
      if used < MMAP_MAX {
        k := Some(used);
        used := used + 1;
      } else {
        k := None;
      }
    }

    /** e820_tree_insert. It fails exactly when the pool has too few nodes left. */
    method Insert(min: int, max: int, typ: nat, k: Option<nat>) returns (k': Option<nat>, ok: bool)
      requires Holds(k)
      modifies this`used, cells
      ensures Valid()
      ensures ok <==> old(used + Added(Tree(k), T.Insert(Tree(k), min, max, typ)) <= MMAP_MAX)
      ensures ok ==> used == old(used + Added(Tree(k), T.Insert(Tree(k), min, max, typ)))
      ensures ok ==> Grown(old(cells[..]), old(used), k, cells[..], used, k', T.Insert(old(Tree(k)), min, max, typ))
      decreases Room(k), 1
    {
      hide Sound, Nodes, AsTree, Grown;
      k' := k;
      ghost var c0, u0 := cells[..], used;
      if k == None {
        LeafHere(c0, u0);
        k' := Alloc();
        if k' == None {
          ok := false;
          return;
        }
        cells[k'.value] := Cell(min, max, typ, None, None);
        GrownFirst(c0, u0, Cell(min, max, typ, None, None));
      } else {
        var n := k.value;
        BothDone(Tree(k), min, max, typ);
        Parts(c0, u0, n);
        ok := InsertLeft(min, max, typ, n);
        if !ok { return; }
        ghost var c1, u1 := cells[..], used;
        GrownSound(c0, u0, k, c1, u1, k, LeftDone(AsTree(c0, u0, k), min, max, typ));
        ok := InsertRight(min, max, typ, n);
        if !ok { return; }
        GrownTwice(c0, u0, k, c1, u1, LeftDone(AsTree(c0, u0, k), min, max, typ),
                   cells[..], used, T.Insert(AsTree(c0, u0, k), min, max, typ));
      }
      ok := true;
    }

    /** The insertion of what is left of the interval of node `n`. */
    method InsertLeft(min: int, max: int, typ: nat, n: nat) returns (ok: bool)
      requires Holds(Some(n))
      modifies this`used, cells
      ensures Valid()
      ensures ok <==> old(used + Added(Tree(Some(n)), LeftDone(Tree(Some(n)), min, max, typ)) <= MMAP_MAX)
      ensures ok ==> used == old(used + Added(Tree(Some(n)), LeftDone(Tree(Some(n)), min, max, typ)))
      ensures ok ==> Grown(old(cells[..]), old(used), Some(n), cells[..], used, Some(n),
                           LeftDone(old(Tree(Some(n))), min, max, typ))
      decreases Room(Some(n)), 0
    {
      hide Sound, Nodes, AsTree, Grown;
      ghost var c0, u0 := cells[..], used;
      Parts(c0, u0, n);
      ok := true;
      if min < cells[n].min {
        var left: Option<nat>;
        left, ok := Insert(min, if cells[n].min > max then max else cells[n].min - 1, typ, cells[n].left);
        if ok {
          GrownLeft(c0, u0, n, cells[..], used, left, T.Insert(AsTree(c0, u0, Some(n)).left, min, if c0[n].min > max then max else c0[n].min - 1, typ));
          cells[n] := cells[n].(left := left);
        }
      } else {
        GrownSame(c0, u0, Some(n));
      }
    }

    /** The insertion of what is right of it. */
    method InsertRight(min: int, max: int, typ: nat, n: nat) returns (ok: bool)
      requires Holds(Some(n))
      modifies this`used, cells
      ensures Valid()
      ensures ok <==> old(used + Added(Tree(Some(n)), RightDone(Tree(Some(n)), min, max, typ)) <= MMAP_MAX)
      ensures ok ==> used == old(used + Added(Tree(Some(n)), RightDone(Tree(Some(n)), min, max, typ)))
      ensures ok ==> Grown(old(cells[..]), old(used), Some(n), cells[..], used, Some(n),
                           RightDone(old(Tree(Some(n))), min, max, typ))
      decreases Room(Some(n)), 0
    {
      hide Sound, Nodes, AsTree, Grown;
      ghost var c0, u0 := cells[..], used;
      Parts(c0, u0, n);
      ok := true;
      if max > cells[n].max {
        var right: Option<nat>;
        right, ok := Insert(if cells[n].max < min then min else cells[n].max + 1, max, typ, cells[n].right);
        if ok {
          GrownRight(c0, u0, n, cells[..], used, right, T.Insert(AsTree(c0, u0, Some(n)).right, if c0[n].max < min then min else c0[n].max + 1, max, typ));
          cells[n] := cells[n].(right := right);
        }
      } else {
        GrownSame(c0, u0, Some(n));
      }
    }

    /** e820_tree_count: the sum in an unsigned byte does not wrap, for the pool is too small. */
    method CountAt(k: Option<nat>) returns (n: nat)
      requires Holds(k)
      ensures n == Count(Tree(k)) <= MMAP_MAX
      decreases Room(k)
    {
      hide Sound, Nodes, AsTree, Count;
      CountBound(cells[..], used, k);
      if k.Some? {
        Parts(cells[..], used, k.value);
        CountSons(Tree(k));
        var l := CountAt(cells[k.value].left);
        var r := CountAt(cells[k.value].right);
        return (1 + l + r) % 256;
      }
      LeafHere(cells[..], used);
      return 0;
    }

    /** e820_tree_convert: the nodes in order from `index` on; `size` fields and other cells are left alone. */
    method Convert(k: Option<nat>, index: nat, mmap: array<Entry>)
      requires Holds(k) && index + Count(Tree(k)) <= mmap.Length
      modifies mmap
      ensures Placed(old(mmap[..]), mmap[..], index, Flatten(Tree(k)))
      decreases Room(k)
    {
      hide Placed, Sound, Nodes, AsTree;
      ghost var m0 := mmap[..];
      if k.Some? {
        ghost var t := Tree(k);
        Parts(cells[..], used, k.value);
        var cell := cells[k.value];
        var n := CountAt(cell.left);
        Convert(cell.left, index, mmap);
        ghost var m1 := mmap[..];
        mmap[index + n] := mmap[index + n].(addr := cell.min % WORD64);
        mmap[index + n] := mmap[index + n].(len := (cell.max - cell.min + 1) % WORD64);
        mmap[index + n] := mmap[index + n].(typ := cell.typ);
        ghost var m2 := mmap[..];
        Convert(cell.right, index + n + 1, mmap);
        PlacedJoin(m0, m1, m2, mmap[..], index, Flatten(t.left), Written(t), Flatten(t.right));
      } else {
        PlacedNone(m0, index);
      }
    }
  }

  /** `m'` is `m` with the regions `es` at `index`. */
  ghost predicate Placed(m: seq<Entry>, m': seq<Entry>, index: nat, es: seq<Entry>) {
    && |m'| == |m| && index + |es| <= |m|
    && (forall i :: index <= i < index + |es| ==> SameRegion(m'[i], es[i - index]))
    && (forall i :: index <= i < index + |es| ==> m'[i].size == m[i].size)
    && (forall i :: 0 <= i < index || index + |es| <= i < |m| ==> m'[i] == m[i])
  }

  lemma PlacedNone(m: seq<Entry>, index: nat)
    requires index <= |m|
    ensures Placed(m, m, index, [])
  {
  }

  lemma PlacedJoin(m0: seq<Entry>, m1: seq<Entry>, m2: seq<Entry>, m3: seq<Entry>, index: nat,
                   es: seq<Entry>, e: Entry, fs: seq<Entry>)
    requires Placed(m0, m1, index, es) && index + |es| + 1 + |fs| <= |m1| == |m2|
    requires m2 == m1[index + |es| := e.(size := m1[index + |es|].size)]
    requires Placed(m2, m3, index + |es| + 1, fs)
    ensures Placed(m0, m3, index, es + [e] + fs)
  {
  }

  // ---------- Counting and flattening ----------

  lemma LeafHere(c: seq<Cell>, used: nat)
    ensures Sound(c, used, None) && AsTree(c, used, None) == Leaf && Count(Leaf) == 0
  {
  }

  lemma GrownSound(c: seq<Cell>, used: nat, k: Option<nat>, c': seq<Cell>, used': nat, k': Option<nat>, t': Tree)
    requires Sound(c, used, k) && Grown(c, used, k, c', used', k', t')
    ensures Sound(c', used', k') && AsTree(c', used', k') == t' && |c'| == |c|
  {
  }

  // ---------- Truncation at 4 GB ----------

  const AVAILABLE := 1
  const RESERVED := 2

  /** What e820_truncate32b makes of an entry; the end of the entry is computed in 64 bits. */
  function Cut(e: Entry): Entry {
    if e.typ != AVAILABLE then e
    else if e.addr >= WORD32 then e.(typ := RESERVED)
    else if (e.addr + e.len) % WORD64 >= WORD32 then e.(len := WORD32 - 1 - e.addr)
    else e
  }

  /** Available memory that starts below 4 GB and runs to the very end of the address space. */
  predicate EndWraps(e: Entry) {
    e.typ == AVAILABLE && e.addr < WORD32 && e.addr + e.len == WORD64
  }

  ghost predicate Usable(e: Entry, x: int) {
    Covering(e, x) && e.typ == AVAILABLE
  }

  /** The last byte below 4 GB goes too, and an end that wraps to 0 escapes the cut. */
  lemma CutExact(e: Entry)
    requires Fits(e)
    ensures (forall x :: Usable(Cut(e), x) <==> Usable(e, x) && x < WORD32 - 1) <==> !EndWraps(e)
  {
    if EndWraps(e) {
      assert (e.addr + e.len) % WORD64 == 0;
      assert Usable(Cut(e), WORD32) && Usable(e, WORD32);
    }
  }

  /** All memory from 1 MB on, as one entry: the addresses above 4 GB stay available. */
  lemma WrapEscapes()
    ensures var e := Entry(0, 0x10_0000, WORD64 - 0x10_0000, AVAILABLE);
      Fits(e) && EndWraps(e) && Usable(Cut(e), WORD32)
  {
    var e := Entry(0, 0x10_0000, WORD64 - 0x10_0000, AVAILABLE);
    assert (e.addr + e.len) % WORD64 == 0;
  }

  lemma CutAt(e: Entry, x: int)
    requires Fits(e) && !EndWraps(e)
    ensures Usable(Cut(e), x) <==> Usable(e, x) && x < WORD32 - 1
    ensures Covering(Cut(e), x) ==> Covering(e, x)
  {
    CutExact(e);
  }

  /** For a whole map: exactly the available memory below 4 GB, less one byte, is left available. */
  lemma CutMap(es: seq<Entry>, fs: seq<Entry>, lo: int, hi: int, x: int)
    requires Ascending(es, lo, hi) && |fs| == |es|
    requires forall i :: 0 <= i < |es| ==> Fits(es[i]) && !EndWraps(es[i]) && fs[i] == Cut(es[i])
    ensures FirstCover(fs, x) == Some(AVAILABLE) <==> FirstCover(es, x) == Some(AVAILABLE) && x < WORD32 - 1
  {
    hide FirstCover, Cut, Fits, EndWraps;
    var i := FirstCoverAt(es, x);
    var j := FirstCoverAt(fs, x);
    if FirstCover(fs, x).Some? {
      CutAt(es[j], x);
    }
    if FirstCover(es, x).Some? {
      CutAt(es[i], x);
    }
  }

  lemma CutMapAll(es: seq<Entry>, fs: seq<Entry>, lo: int, hi: int)
    requires Ascending(es, lo, hi) && |fs| == |es| && AllFit(es) && NoneWraps(es)
    requires forall i :: 0 <= i < |es| ==> fs[i] == Cut(es[i])
    ensures forall x ::
      FirstCover(fs, x) == Some(AVAILABLE) <==> FirstCover(es, x) == Some(AVAILABLE) && x < WORD32 - 1
  {
    forall x
      ensures FirstCover(fs, x) == Some(AVAILABLE) <==> FirstCover(es, x) == Some(AVAILABLE) && x < WORD32 - 1
    {
      CutMap(es, fs, lo, hi, x);
    }
  }

  /**
    What the truncated map says of an address in available memory, given the entry `e` that
    covers it: memory from an entry that starts above 4 GB is reserved; of one that starts
    below, the part from the last byte below 4 GB on is gone, unless its end wrapped to 0.
   */
  predicate Becomes(e: Entry, x: int, v: Option<nat>) {
    if e.typ != AVAILABLE then v == Some(e.typ)
    else if e.addr >= WORD32 then v == Some(RESERVED)
    else if x < WORD32 - 1 || e.addr + e.len == WORD64 then v == Some(AVAILABLE)
    else v == None
  }

  lemma CutBecomes(e: Entry, x: int)
    requires e.addr + e.len <= WORD64 && Covering(e, x)
    ensures Becomes(e, x, if Covering(Cut(e), x) then Some(Cut(e).typ) else None)
  {
    if e.addr + e.len == WORD64 { assert WORD64 % WORD64 == 0; }
  }

  /** A cut entry never covers more than before. */
  lemma CutShrinks(e: Entry)
    requires e.addr + e.len <= WORD64
    ensures Cut(e).addr == e.addr && Cut(e).len <= e.len && Cut(e).size == e.size
  {
    if e.typ == AVAILABLE && e.addr < WORD32 && e.addr + e.len < WORD32 { assert (e.addr + e.len) % WORD64 == e.addr + e.len; }
  }

  /** For a whole map, at every address, whatever its type. */
  ghost predicate Truncated(es: seq<Entry>, fs: seq<Entry>) {
    && |fs| == |es|
    && (forall i :: 0 <= i < |es| ==> fs[i].addr == es[i].addr && fs[i].size == es[i].size && fs[i].len <= es[i].len)
    && (forall x :: FirstCover(es, x) == None ==> FirstCover(fs, x) == None)
    && (forall e, x :: e in es && Covering(e, x) ==> Becomes(e, x, FirstCover(fs, x)))
  }

  lemma CutTruncates(es: seq<Entry>, fs: seq<Entry>, hi: int)
    requires Ascending(es, 0, hi) && hi < WORD64 && |fs| == |es| && forall i :: 0 <= i < |es| ==> fs[i] == Cut(es[i])
    ensures Truncated(es, fs) && Ascending(fs, 0, hi)
  {
    hide FirstCover, Cut, Becomes;
    forall i | 0 <= i < |es| ensures fs[i].addr == es[i].addr && fs[i].size == es[i].size && fs[i].len <= es[i].len {
      CutShrinks(es[i]);
    }
    forall x | FirstCover(es, x) == None ensures FirstCover(fs, x) == None {
      var i := FirstCoverAt(es, x);
      var j := FirstCoverAt(fs, x);
    }
    forall e, x | e in es && Covering(e, x) ensures Becomes(e, x, FirstCover(fs, x)) {
      var i :| 0 <= i < |es| && es[i] == e;
      var j := FirstCoverAt(fs, x);
      CutBecomes(e, x);
    }
  }

  /** In terms of the lookups alone: only available memory from the last byte below 4 GB on changes. */
  lemma TruncatedLookups(es: seq<Entry>, fs: seq<Entry>, x: int)
    requires Truncated(es, fs)
    ensures FirstCover(es, x) != Some(AVAILABLE) || x < WORD32 - 1 ==> FirstCover(fs, x) == FirstCover(es, x)
  {
    hide FirstCover;
    var i := FirstCoverAt(es, x);
    if FirstCover(es, x).Some? { assert Becomes(es[i], x, FirstCover(fs, x)); }
  }

  ghost predicate NoneWraps(es: seq<Entry>) {
    forall e :: e in es ==> !EndWraps(e)
  }

  /** No node is available memory from below 4 GB to the end, if no inserted entry is. */
  ghost predicate Tame(t: Tree) {
    t.Node? ==>
      && 0 <= t.min && 0 <= t.max
      && (t.typ == AVAILABLE && t.min < WORD32 ==> t.max < WORD64 - 1)
      && Tame(t.left) && Tame(t.right)
  }

  lemma {:induction false} InsertTame(t: Tree, min: int, max: int, typ: nat)
    requires Tame(t) && 0 <= min && 0 <= max && (typ == AVAILABLE && min < WORD32 ==> max < WORD64 - 1)
    ensures Tame(T.Insert(t, min, max, typ))
  {
    if t.Node? {
      if min < t.min { InsertTame(t.left, min, if t.min > max then max else t.min - 1, typ); }
      if max > t.max { InsertTame(t.right, if t.max < min then min else t.max + 1, max, typ); }
    }
  }

  lemma {:induction false} BuildTame(es: seq<Entry>)
    requires AllFit(es) && NoneWraps(es)
    ensures Tame(Build(es))
  {
    if es != [] {
      var e := es[|es| - 1];
      assert e in es;
      UpperExact(e);
      BuildTame(es[..|es| - 1]);
      InsertTame(Build(es[..|es| - 1]), e.addr, Upper(e), e.typ);
    }
  }

  lemma {:induction false} FlattenTame(t: Tree, lo: int, hi: int)
    requires Tame(t) && Short(t) && Within(t, lo, hi) && hi < WORD64
    ensures AllFit(Flatten(t)) && NoneWraps(Flatten(t))
  {
    if t.Node? {
      FlattenTame(t.left, lo, t.min - 1);
      FlattenTame(t.right, t.max + 1, hi);
      WrittenExact(t);
    }
  }

  lemma TameMap(es: seq<Entry>, m: seq<Entry>, m': seq<Entry>)
    requires AllFit(es) && NoneWraps(es) && Placed(m, m', 0, Flatten(Build(es)))
    ensures var r := m'[..Count(Build(es))]; AllFit(r) && NoneWraps(r)
  {
    var t := Build(es);
    BuildTame(es);
    BuildWithin(es);
    BuildShort(es);
    FlattenTame(t, 0, WORD64 - 1);
    forall e | e in m'[..Count(t)]
      ensures Fits(e) && !EndWraps(e)
    {
      var i :| 0 <= i < Count(t) && m'[i] == e;
      assert Flatten(t)[i] in Flatten(t);
    }
  }

  method Truncate(mmap: array<Entry>, n: nat)
    requires n <= mmap.Length
    modifies mmap
    ensures forall i :: 0 <= i < n ==> mmap[i] == Cut(old(mmap[i]))
    ensures forall i :: n <= i < mmap.Length ==> mmap[i] == old(mmap[i])
  {
    for i := 0 to n
      invariant forall k :: 0 <= k < i ==> mmap[k] == Cut(old(mmap[k]))
      invariant forall k :: i <= k < mmap.Length ==> mmap[k] == old(mmap[k])
    {
      if mmap[i].addr / WORD32 != 0 && mmap[i].typ == AVAILABLE {
        mmap[i] := mmap[i].(typ := RESERVED);
      }
      if mmap[i].addr / WORD32 == 0 && (mmap[i].addr + mmap[i].len) % WORD64 / WORD32 != 0 && mmap[i].typ == AVAILABLE {
        mmap[i] := mmap[i].(len := WORD32 - 1 - mmap[i].addr);
      }
    }
  }

  // ---------- The whole of e820_setup ----------

  lemma SortedPrefix(s: seq<Entry>, r: seq<Entry>, n: nat)
    requires Shuffled(s, r, 0, n) && NearlySorted(r, 0, n) && AllFit(s[..n])
    ensures multiset(r[..n]) == multiset(s[..n]) && NearlySorted(r[..n], 0, n) && AllFit(r[..n])
    ensures NoneWraps(s[..n]) ==> NoneWraps(r[..n])
  {
    assert s[0..n] == s[..n] && r[0..n] == r[..n];
    forall e | e in r[..n] ensures e in s[..n] {
      assert e in multiset(s[..n]);
    }
  }

  lemma BuildNext(es: seq<Entry>, i: nat)
    requires i < |es|
    ensures Build(es[..i + 1]) == T.Insert(Build(es[..i]), es[i].addr, Upper(es[i]), es[i].typ)
  {
    assert es[..i + 1][..i] == es[..i];
  }

  lemma {:induction false} BuildGrows(es: seq<Entry>, i: nat)
    requires i <= |es|
    ensures Count(Build(es[..i])) <= Count(Build(es))
    decreases |es| - i
  {
    if i < |es| {
      BuildNext(es, i);
      InsertCounts(Build(es[..i]), es[i].addr, Upper(es[i]), es[i].typ);
      BuildGrows(es, i + 1);
    } else {
      assert es[..i] == es;
    }
  }

  lemma BuildNone()
    ensures Build([]) == Leaf
  {
  }

  lemma BuildNode(es: seq<Entry>)
    requires es != []
    ensures Count(Build(es)) > 0
  {
  }

  /** What flattening the tree of the sorted entries leaves in the map. */
  lemma FlatMap(es: seq<Entry>, m: seq<Entry>, m': seq<Entry>)
    requires AllFit(es) && Placed(m, m', 0, Flatten(Build(es)))
    ensures var r := m'[..Count(Build(es))];
      Ascending(r, 0, WORD64 - 1) && forall x :: FirstCover(r, x) == FirstCover(es, x)
  {
    var t := Build(es);
    var r := m'[..Count(t)];
    BuildWithin(es);
    BuildShort(es);
    FlattenAscending(t, 0, WORD64 - 1);
    forall x ensures FirstCover(r, x) == FirstCover(es, x) {
      FlattenTypeAt(t, 0, WORD64 - 1, x);
      FirstCoverSame(r, Flatten(t), x);
      BuildTypeAt(es, x);
    }
  }

  /** The map has `len` new entries in the place of `m`: their `size` fields and all behind them are as before. */
  ghost predicate Kept(m: seq<Entry>, m': seq<Entry>, len: nat) {
    |m'| == |m| && forall i :: 0 <= i < |m| ==> if i < len then m'[i].size == m[i].size else m'[i] == m[i]
  }

  lemma PlacedKeeps(s: seq<Entry>, sorted: seq<Entry>, m: seq<Entry>, m': seq<Entry>, n: nat, es: seq<Entry>)
    requires Shuffled(s, m, 0, n) && sorted == m[..n] && Placed(m, m', 0, es)
    ensures Kept(sorted + s[n..], m', |es|)
  {
    assert m == sorted + m[n..];
  }

  lemma KeptTruncated(m: seq<Entry>, m1: seq<Entry>, m2: seq<Entry>, len: nat)
    requires Kept(m, m1, len) && |m2| == |m1| && len <= |m1|
    requires forall i :: 0 <= i < len ==> m2[i] == Cut(m1[i])
    requires forall i :: len <= i < |m1| ==> m2[i] == m1[i]
    ensures Kept(m, m2, len)
  {
  }

  /** The insertions of e820_setup. */
  method BuildTree(mmap: array<Entry>, n: nat, pool: Pool) returns (ok: bool, k: Option<nat>)
    requires n <= mmap.Length && pool.Valid() && pool.used == 0
    modifies pool`used, pool.cells
    ensures pool.Valid()
    ensures ok <==> Count(Build(mmap[..n])) <= MMAP_MAX
    ensures ok ==> pool.Holds(k) && pool.Tree(k) == Build(mmap[..n])
  {
    hide Sound, Nodes, AsTree, Grown, Build, Count, T.Insert;
    ghost var es := mmap[..n];
    k, ok := None, true;
    LeafHere(pool.cells[..], 0);
    BuildNone();
    var i := 0;
    while i < n
      invariant 0 <= i <= n
      invariant mmap[..n] == es
      invariant pool.Holds(k) && pool.Tree(k) == Build(es[..i])
      invariant pool.used == Count(Build(es[..i])) <= MMAP_MAX
    {
      assert mmap[i] == es[i];
      BuildNext(es, i);
      BuildGrows(es, i + 1);
      ghost var c, u, before := pool.cells[..], pool.used, k;
      k, ok := pool.Insert(mmap[i].addr, (mmap[i].addr + mmap[i].len - 1) % WORD64, mmap[i].typ, k);
      if !ok {
        return;
      }
      GrownSound(c, u, before, pool.cells[..], pool.used, k, Build(es[..i + 1]));
      i := i + 1;
    }
    assert es[..n] == es;
  }

  /**
    Sorting, inserting and flattening the first `n` entries. `sorted` is what the sort made
    of them; `exact` says that its byte-wide indices never wrapped.
   */
  method Sanitize(mmap: array<Entry>, n: nat, pool: Pool)
    returns (ok: bool, len: nat, ghost sorted: seq<Entry>, ghost exact: bool)
    requires mmap.Length == MMAP_MAX && 0 < n <= MMAP_MAX && AllFit(mmap[..n])
    requires pool.Valid() && pool.used == 0
    modifies mmap, pool`used, pool.cells
    ensures |sorted| == n && multiset(sorted) == multiset(old(mmap[..n])) && NearlySorted(sorted, 0, n)
    ensures sorted == Sorted(old(mmap[..]), 0, n)[..n] && (exact <==> !Wraps(old(mmap[..]), n))
    ensures n <= 2 ==> sorted == old(mmap[..n])
    ensures ok <==> Count(Build(sorted)) <= MMAP_MAX
    ensures n <= 64 ==> ok
    ensures old(GreatestRepeated(mmap[..], 0, n)) ==> exact
    ensures ok ==> 0 < len <= MMAP_MAX && len <= 2 * n - 1 && Ascending(mmap[..len], 0, WORD64 - 1)
    ensures !ok ==> mmap[..] == Sorted(old(mmap[..]), 0, n)
    ensures ok ==> len == Count(Build(sorted)) && Kept(sorted + old(mmap[n..]), mmap[..], len)
    ensures ok ==> forall x :: FirstCover(mmap[..len], x) == FirstCover(sorted, x)
    ensures ok && TypesApart(old(mmap[..n])) ==> forall x :: Greatest(old(mmap[..n]), x, FirstCover(mmap[..len], x))
    ensures ok && NoneWraps(old(mmap[..n])) ==> AllFit(mmap[..len]) && NoneWraps(mmap[..len])
  {
    hide Shuffled, NearlySorted, Sorted, Wraps, AllFit, NoneWraps, TypesApart, Greatest, Build, Count, Flatten, FirstCover, Ascending, Placed, Kept, Sound, Nodes, AsTree;
    ghost var s := mmap[..];
    exact := QSort(mmap, 0, n - 1);
    SortedPrefix(s, mmap[..], n);
    sorted := mmap[..n];
    BuildCount(sorted);
    var k;
    len := 0;
    ok, k := BuildTree(mmap, n, pool);
    if !ok { return; }
    len := pool.CountAt(k);
    BuildNode(sorted);
    if len == 0 {
      ok := false;
      return;
    }
    ghost var m := mmap[..];
    pool.Convert(k, 0, mmap);
    PlacedKeeps(s, sorted, m, mmap[..], n, Flatten(Build(sorted)));
    FlatMap(sorted, m, mmap[..]);
    if NoneWraps(sorted) { TameMap(sorted, m, mmap[..]); }
    if TypesApart(s[..n]) { ApartGreatest(s[..n], sorted); }
  }

  /** Two entries pass the sort as they are, so an available range can hide a reserved one. */
  method HidesReserved(mmap: array<Entry>, pool: Pool) returns (len: nat)
    requires mmap.Length == MMAP_MAX && mmap[0] == Entry(0, 0, 100, 1) && mmap[1] == Entry(0, 50, 50, 2)
    requires pool.Valid() && pool.used == 0
    modifies mmap, pool`used, pool.cells
    ensures len <= MMAP_MAX && FirstCover(mmap[..len], 70) == Some(AVAILABLE)
    ensures !Greatest(old(mmap[..2]), 70, FirstCover(mmap[..len], 70))
  {
    hide FirstCover, Ascending, NearlySorted, Build, Greatest;
    AvailableHidesReserved();
    assert mmap[..2] == [Entry(0, 0, 100, 1), Entry(0, 50, 50, 2)];
    BuildTypeAt(mmap[..2], 70);
    var ok;
    ghost var sorted, exact;
    ok, len, sorted, exact := Sanitize(mmap, 2, pool);
  }

  ghost predicate SomeUsable(es: seq<Entry>, x: int) {
    exists e :: e in es && Usable(e, x)
  }

  /** Where types do not overlap, available is what some available entry covers. */
  lemma ApartUsable(es: seq<Entry>, x: int, v: Option<nat>)
    requires TypesApart(es) && Greatest(es, x, v)
    ensures v == Some(AVAILABLE) <==> SomeUsable(es, x)
  {
    if v.Some? {
      var i :| 0 <= i < |es| && Covering(es[i], x) && es[i].typ == v.value;
      assert Usable(es[i], x) <==> v == Some(AVAILABLE);
      if SomeUsable(es, x) {
        var e :| e in es && Usable(e, x);
        assert Apart(e, es[i]);
      }
    }
  }

  /**
    e820_setup after the boot loader's entries were copied. `flat` is the map before the
    truncation: the lookups of the sorted entries, ascending and disjoint.
   */
  method Setup(mmap: array<Entry>, n: nat, pool: Pool)
    returns (ok: bool, len: nat, ghost sorted: seq<Entry>, ghost exact: bool, ghost flat: seq<Entry>)
    requires mmap.Length == MMAP_MAX && 0 < n <= MMAP_MAX && AllFit(mmap[..n])
    requires pool.Valid() && pool.used == 0
    modifies mmap, pool`used, pool.cells
    ensures |sorted| == n && multiset(sorted) == multiset(old(mmap[..n])) && NearlySorted(sorted, 0, n)
    ensures sorted == Sorted(old(mmap[..]), 0, n)[..n] && (exact <==> !Wraps(old(mmap[..]), n))
    ensures n <= 2 ==> sorted == old(mmap[..n])
    ensures ok <==> Count(Build(sorted)) <= MMAP_MAX
    ensures n <= 64 ==> ok
    ensures old(GreatestRepeated(mmap[..], 0, n)) ==> exact
    ensures ok ==> 0 < len == |flat| <= MMAP_MAX && Ascending(flat, 0, WORD64 - 1) && Ascending(mmap[..len], 0, WORD64 - 1)
    ensures !ok ==> mmap[..] == Sorted(old(mmap[..]), 0, n)
    ensures ok ==> Kept(sorted + old(mmap[n..]), mmap[..], len)
    ensures ok ==> Truncated(flat, mmap[..len]) && forall x :: FirstCover(flat, x) == FirstCover(sorted, x)
    ensures ok ==> forall x :: FirstCover(sorted, x) != Some(AVAILABLE) || x < WORD32 - 1 ==>
                               FirstCover(mmap[..len], x) == FirstCover(sorted, x)
    ensures ok && NoneWraps(old(mmap[..n])) ==>
      forall x :: FirstCover(mmap[..len], x) == Some(AVAILABLE) <==>
                  FirstCover(sorted, x) == Some(AVAILABLE) && x < WORD32 - 1
    ensures ok && NoneWraps(old(mmap[..n])) && TypesApart(old(mmap[..n])) ==>
      forall x :: FirstCover(mmap[..len], x) == Some(AVAILABLE) <==> SomeUsable(old(mmap[..n]), x) && x < WORD32 - 1
  {
    hide NearlySorted, Sorted, Wraps, AllFit, NoneWraps, TypesApart, Greatest, SomeUsable, FirstCover, Ascending, Cut, Truncated, Kept, Build, Count;
    ghost var s := mmap[..n];
    ok, len, sorted, exact := Sanitize(mmap, n, pool);
    flat := [];
    if ok {
      ghost var m, whole := mmap[..len], mmap[..];
      flat := m;
      Truncate(mmap, len);
      KeptTruncated(sorted + old(mmap[n..]), whole, mmap[..], len);
      CutTruncates(m, mmap[..len], WORD64 - 1);
      forall x | FirstCover(sorted, x) != Some(AVAILABLE) || x < WORD32 - 1
        ensures FirstCover(mmap[..len], x) == FirstCover(sorted, x)
      {
        TruncatedLookups(m, mmap[..len], x);
      }
      if NoneWraps(m) && AllFit(m) { CutMapAll(m, mmap[..len], 0, WORD64 - 1); }
      if TypesApart(s) {
        forall x ensures FirstCover(m, x) == Some(AVAILABLE) <==> SomeUsable(s, x) {
          ApartUsable(s, x, FirstCover(m, x));
        }
      }
    }
  }
}
