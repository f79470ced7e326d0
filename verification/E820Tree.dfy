/** The interval tree that makes the entries of a memory map disjoint: kern/arch/x86/e820.c. */
module E820Tree {
  import opened Machine
  import opened SeqLists
  import opened E820Sort

  datatype Tree = Leaf | Node(left: Tree, min: int, max: int, typ: nat, right: Tree)

  /** What e820_tree_insert builds: only the parts of [min, max] outside the intervals it meets are added. */
  function Insert(t: Tree, min: int, max: int, typ: nat): Tree {
    match t
    case Leaf => Node(Leaf, min, max, typ, Leaf)
    case Node(l, a, b, ty, r) =>
      var l' := if min < a then Insert(l, min, if a > max then max else a - 1, typ) else l;
      var r' := if max > b then Insert(r, if b < min then min else b + 1, max, typ) else r;
      Node(l', a, b, ty, r')
  }

  /** Ordered and disjoint: the intervals of a subtree lie in its window. An interval may be empty. */
  ghost predicate Within(t: Tree, lo: int, hi: int) {
    t.Node? ==>
      && lo <= t.min <= t.max + 1 && t.max <= hi
      && Within(t.left, lo, t.min - 1) && Within(t.right, t.max + 1, hi)
  }

  /** The type the tree gives to an address. */
  function TypeAt(t: Tree, x: int): Option<nat> {
    match t
    case Leaf => None
    case Node(l, a, b, ty, r) =>
      if a <= x <= b then Some(ty) else if x < a then TypeAt(l, x) else TypeAt(r, x)
  }

  /** Any node that covers the address, wherever it is in the tree. */
  ghost predicate Covers(t: Tree, x: int, typ: nat) {
    t.Node? && ((t.min <= x <= t.max && t.typ == typ) || Covers(t.left, x, typ) || Covers(t.right, x, typ))
  }

  /** The search is complete: no node elsewhere covers the address with another type. */
  lemma {:induction false} SearchComplete(t: Tree, lo: int, hi: int, x: int, typ: nat)
    requires Within(t, lo, hi)
    ensures Covers(t, x, typ) <==> TypeAt(t, x) == Some(typ)
    ensures TypeAt(t, x).Some? ==> lo <= x <= hi
  {
    if t.Node? {
      SearchComplete(t.left, lo, t.min - 1, x, typ);
      SearchComplete(t.right, t.max + 1, hi, x, typ);
    }
  }

  lemma {:induction false} InsertWithin(t: Tree, lo: int, hi: int, min: int, max: int, typ: nat)
    requires Within(t, lo, hi) && lo <= min <= max + 1 && max <= hi
    ensures Within(Insert(t, min, max, typ), lo, hi)
  {
    if t.Node? {
      if min < t.min { InsertWithin(t.left, lo, t.min - 1, min, if t.min > max then max else t.min - 1, typ); }
      if max > t.max { InsertWithin(t.right, t.max + 1, hi, if t.max < min then min else t.max + 1, max, typ); }
    }
  }

  /** An insertion changes the type of exactly the addresses that had none and are in the interval. */
  lemma {:induction false} InsertTypeAt(t: Tree, lo: int, hi: int, min: int, max: int, typ: nat, x: int)
    requires Within(t, lo, hi) && lo <= min <= max + 1 && max <= hi
    ensures TypeAt(Insert(t, min, max, typ), x) ==
            if TypeAt(t, x).Some? then TypeAt(t, x) else if min <= x <= max then Some(typ) else None
  {
    if t.Node? {
      SearchComplete(t.left, lo, t.min - 1, x, typ);
      SearchComplete(t.right, t.max + 1, hi, x, typ);
      if min < t.min { InsertTypeAt(t.left, lo, t.min - 1, min, if t.min > max then max else t.min - 1, typ, x); }
      if max > t.max { InsertTypeAt(t.right, t.max + 1, hi, if t.max < min then min else t.max + 1, max, typ, x); }
    }
  }

  // ---------- The number of nodes ----------

  function Count(t: Tree): (n: nat) {
    match t
    case Leaf => 0
    case Node(l, _, _, _, r) => 1 + Count(l) + Count(r)
  }

  /** Nodes, plus the stretches of the window between them that no node covers. */
  ghost function Weight(t: Tree, lo: int, hi: int): (w: nat) {
    match t
    case Leaf => if lo <= hi then 1 else 0
    case Node(l, a, b, _, r) => 1 + Weight(l, lo, a - 1) + Weight(r, b + 1, hi)
  }

  function Bit(b: bool): nat {
    if b then 1 else 0
  }

  /** Wherever an inserted interval is cut it fills a gap up to its edge, so both ends pay only once. */
  lemma {:induction false} InsertWeight(t: Tree, lo: int, hi: int, min: int, max: int, typ: nat)
    requires Within(t, lo, hi) && lo <= min <= max + 1 && max <= hi
    ensures Weight(Insert(t, min, max, typ), lo, hi) <= Weight(t, lo, hi) + 2
    ensures min <= max ==>
      Weight(Insert(t, min, max, typ), lo, hi) + Bit(min == lo) + Bit(max == hi) <= Weight(t, lo, hi) + 2
  {
    if t.Node? {
      if min < t.min { InsertWeight(t.left, lo, t.min - 1, min, if t.min > max then max else t.min - 1, typ); }
      if max > t.max { InsertWeight(t.right, t.max + 1, hi, if t.max < min then min else t.max + 1, max, typ); }
    }
  }

  /** The outermost gaps are there whenever no interval touches the ends of the window. */
  lemma {:induction false} OuterGaps(t: Tree, lo: int, hi: int)
    requires t.Node? && Within(t, lo, hi)
    ensures Weight(t, lo - 1, hi) >= Count(t) + 1
    ensures Weight(t, lo, hi + 1) >= Count(t) + 1
    ensures Weight(t, lo - 1, hi + 1) >= Count(t) + 2
  {
    if t.left.Node? { OuterGaps(t.left, lo, t.min - 1); }
    if t.right.Node? { OuterGaps(t.right, t.max + 1, hi); }
    WeightCounts(t.left, lo, t.min - 1);
    WeightCounts(t.right, t.max + 1, hi);
  }

  lemma {:induction false} WeightCounts(t: Tree, lo: int, hi: int)
    ensures Weight(t, lo, hi) >= Count(t)
  {
    if t.Node? {
      WeightCounts(t.left, lo, t.min - 1);
      WeightCounts(t.right, t.max + 1, hi);
    }
  }

  // ---------- From entries to the tree ----------

  /** The last address of an entry as the code computes it, in 64-bit unsigned arithmetic. */
  function Upper(e: Entry): int {
    (e.addr + e.len - 1) % WORD64
  }

  /** The entry ends inside the 64-bit address space, and is not the empty one at address 0. */
  predicate Fits(e: Entry) {
    e.addr < WORD64 && e.len < WORD64 && 0 < e.addr + e.len <= WORD64
  }

  /** For entries that do not fit, the computed last address is not theirs. */
  lemma UpperExact(e: Entry)
    requires e.addr < WORD64 && e.len < WORD64
    ensures Upper(e) == e.addr + e.len - 1 <==> Fits(e)
  {
    if e.addr + e.len == 0 {
      assert (-1) % WORD64 == WORD64 - 1;
    } else if e.addr + e.len > WORD64 {
      assert Upper(e) == e.addr + e.len - 1 - WORD64;
    }
  }

  /** In particular an empty entry at address 0 takes the whole address space. */
  lemma EmptyEntryTakesAll(size: nat, typ: nat, x: int)
    requires 0 <= x < WORD64
    ensures TypeAt(Build([Entry(size, 0, 0, typ)]), x) == Some(typ)
  {
    var e := Entry(size, 0, 0, typ);
    assert [e][..0] == [];
    assert Build([e]) == Insert(Leaf, 0, Upper(e), typ);
    assert (-1) % WORD64 == WORD64 - 1;
  }

  /** The tree of one entry is right at every address exactly if the entry fits. */
  lemma OneEntryExact(e: Entry)
    requires e.addr < WORD64 && e.len < WORD64
    ensures (forall x :: 0 <= x < WORD64 ==> TypeAt(Build([e]), x) == FirstCover([e], x)) <==> Fits(e)
  {
    if Fits(e) {
      assert AllFit([e]);
      forall x | 0 <= x < WORD64 ensures TypeAt(Build([e]), x) == FirstCover([e], x) { BuildTypeAt([e], x); }
    } else if e.len == 0 {
      EmptyEntryTakesAll(e.size, e.typ, 7);
      assert e == Entry(e.size, 0, 0, e.typ);
      FirstCoverOne(e, 7);
    } else {
      assert [e][..0] == [];
      assert Build([e]) == Insert(Leaf, e.addr, Upper(e), e.typ);
      UpperWraps(e);
      FirstCoverOne(e, e.addr);
      assert TypeAt(Build([e]), e.addr) == None;
    }
  }

  lemma UpperWraps(e: Entry)
    requires e.addr < WORD64 && e.len < WORD64 && e.addr + e.len > WORD64
    ensures Upper(e) < e.addr
  {
    assert Upper(e) == e.addr + e.len - 1 - WORD64;
  }

  predicate Covering(e: Entry, x: int) {
    e.addr <= x < e.addr + e.len
  }

  /** The type of the first entry that covers the address. */
  function FirstCover(es: seq<Entry>, x: int): Option<nat> {
    if es == [] then None
    else if Covering(es[0], x) then Some(es[0].typ)
    else FirstCover(es[1..], x)
  }

  lemma {:induction false} FirstCoverJoin(es: seq<Entry>, fs: seq<Entry>, x: int)
    ensures FirstCover(es + fs, x) == if FirstCover(es, x).Some? then FirstCover(es, x) else FirstCover(fs, x)
  {
    if es == [] {
      assert es + fs == fs;
    } else {
      FirstCoverJoin(es[1..], fs, x);
      assert (es + fs)[1..] == es[1..] + fs;
    }
  }

  lemma {:induction false} FirstCoverAt(es: seq<Entry>, x: int) returns (i: nat)
    ensures FirstCover(es, x).None? ==> forall k :: 0 <= k < |es| ==> !Covering(es[k], x)
    ensures FirstCover(es, x).Some? ==> i < |es| && Covering(es[i], x) && FirstCover(es, x) == Some(es[i].typ)
    ensures FirstCover(es, x).Some? ==> forall k :: 0 <= k < i ==> !Covering(es[k], x)
  {
    i := 0;
    if es != [] && !Covering(es[0], x) {
      var j := FirstCoverAt(es[1..], x);
      i := j + 1;
      assert forall k :: 0 < k < |es| ==> es[k] == es[1..][k - 1];
    }
  }

  /** The tree after inserting the entries in order. */
  function Build(es: seq<Entry>): Tree {
    if es == [] then Leaf
    else
      var e := es[|es| - 1];
      Insert(Build(es[..|es| - 1]), e.addr, Upper(e), e.typ)
  }

  ghost predicate AllFit(es: seq<Entry>) {
    forall e :: e in es ==> Fits(e)
  }

  lemma {:induction false} BuildWithin(es: seq<Entry>)
    requires AllFit(es)
    ensures Within(Build(es), 0, WORD64 - 1)
  {
    if es != [] {
      var e := es[|es| - 1];
      BuildWithin(es[..|es| - 1]);
      assert e in es;
      UpperExact(e);
      InsertWithin(Build(es[..|es| - 1]), 0, WORD64 - 1, e.addr, Upper(e), e.typ);
    }
  }

  /** Every address has in the tree the type of the first inserted entry that covers it. */
  lemma {:induction false} BuildTypeAt(es: seq<Entry>, x: int)
    requires AllFit(es)
    ensures TypeAt(Build(es), x) == FirstCover(es, x)
  {
    if es != [] {
      hide FirstCover, TypeAt, Within, Insert;
      var e, before := es[|es| - 1], es[..|es| - 1];
      BuildTypeAt(before, x);
      BuildWithin(before);
      assert e in es;
      UpperExact(e);
      InsertTypeAt(Build(before), 0, WORD64 - 1, e.addr, Upper(e), e.typ, x);
      assert es == before + [e];
      FirstCoverJoin(before, [e], x);
      FirstCoverOne(e, x);
    }
  }

  lemma {:induction false} BuildWeight(es: seq<Entry>)
    requires AllFit(es)
    ensures Weight(Build(es), -1, WORD64) <= 2 * |es| + 1
    ensures Build(es).Node? <==> es != []
  {
    if es != [] {
      var e, before := es[|es| - 1], es[..|es| - 1];
      BuildWeight(before);
      BuildWithin(before);
      assert e in es;
      UpperExact(e);
      WithinWider(Build(before), 0, WORD64 - 1, -1, WORD64);
      InsertWeight(Build(before), -1, WORD64, e.addr, Upper(e), e.typ);
    }
  }

  lemma {:induction false} WithinWider(t: Tree, lo: int, hi: int, lo': int, hi': int)
    requires Within(t, lo, hi) && lo' <= lo && hi <= hi'
    ensures Within(t, lo', hi')
  {
    if t.Node? {
      WithinWider(t.left, lo, t.min - 1, lo', t.min - 1);
      WithinWider(t.right, t.max + 1, hi, t.max + 1, hi');
    }
  }

  /** So the 128 nodes of the pool are enough for 64 entries. */
  lemma BuildCount(es: seq<Entry>)
    requires AllFit(es) && es != []
    ensures Count(Build(es)) <= 2 * |es| - 1
  {
    BuildWeight(es);
    BuildWithin(es);
    OuterGaps(Build(es), 0, WORD64 - 1);
  }

  /** No insertion takes a node away. */
  lemma {:induction false} InsertCounts(t: Tree, min: int, max: int, typ: nat)
    ensures Count(t) <= Count(Insert(t, min, max, typ))
  {
    if t.Node? {
      InsertCounts(t.left, min, if t.min > max then max else t.min - 1, typ);
      InsertCounts(t.right, if t.max < min then min else t.max + 1, max, typ);
    }
  }

  // ---------- Which type wins ----------

  /** `v` is the greatest type of the entries that cover the address. */
  ghost predicate Greatest(es: seq<Entry>, x: int, v: Option<nat>) {
    && (v.None? ==> forall i :: 0 <= i < |es| ==> !Covering(es[i], x))
    && (v.Some? ==>
          && (exists i :: 0 <= i < |es| && Covering(es[i], x) && es[i].typ == v.value)
          && (forall i :: 0 <= i < |es| ==> Covering(es[i], x) ==> es[i].typ <= v.value))
  }

  /** Neighbours the sort left in the wrong order overlap only where an earlier entry covers them. */
  ghost predicate InversionsCovered(es: seq<Entry>) {
    forall i, x {:trigger Clash(es, i, x)} :: Clash(es, i, x) ==> exists k :: 0 <= k < i && Covering(es[k], x)
  }

  ghost predicate Clash(es: seq<Entry>, i: int, x: int) {
    0 <= i < |es| - 1 && es[i].typ < es[i + 1].typ && Covering(es[i], x) && Covering(es[i + 1], x)
  }

  /** After the sort the greatest type wins at every address exactly when its inversions are covered. */
  lemma GreatestWinsExactly(es: seq<Entry>)
    requires NearlySorted(es, 0, |es|)
    ensures (forall x :: Greatest(es, x, FirstCover(es, x))) <==> InversionsCovered(es)
  {
    if InversionsCovered(es) {
      forall x ensures Greatest(es, x, FirstCover(es, x)) {
        GreatestWins(es, x);
      }
    } else {
      var i, x :| Clash(es, i, x) && !exists k :: 0 <= k < i && Covering(es[k], x);
      GreatestLoses(es, i, x);
    }
  }

  lemma GreatestWins(es: seq<Entry>, x: int)
    requires NearlySorted(es, 0, |es|) && InversionsCovered(es)
    ensures Greatest(es, x, FirstCover(es, x))
  {
    var i := FirstCoverAt(es, x);
    if FirstCover(es, x).Some? {
      forall j | 0 <= j < |es| && Covering(es[j], x)
        ensures es[j].typ <= es[i].typ
      {
        if j == i + 1 { assert !Clash(es, i, x); }
      }
    }
  }

  lemma GreatestLoses(es: seq<Entry>, i: int, x: int)
    requires Clash(es, i, x) && forall k :: 0 <= k < i ==> !Covering(es[k], x)
    ensures !Greatest(es, x, FirstCover(es, x))
  {
    var j := FirstCoverAt(es, x);
    assert j == i;
    assert Covering(es[i + 1], x);
  }

  /** Entries of different types have no address in common. */
  predicate Apart(e: Entry, f: Entry) {
    e.typ == f.typ || e.len == 0 || f.len == 0 || e.addr + e.len <= f.addr || f.addr + f.len <= e.addr
  }

  ghost predicate TypesApart(es: seq<Entry>) {
    forall e, f :: e in es && f in es ==> Apart(e, f)
  }

  /** What the types at an address are does not depend on the order of the entries. */
  lemma GreatestSame(es: seq<Entry>, fs: seq<Entry>, x: int, v: Option<nat>)
    requires multiset(es) == multiset(fs) && Greatest(es, x, v)
    ensures Greatest(fs, x, v)
  {
    forall i | 0 <= i < |fs| ensures fs[i] in es {
      assert fs[i] in multiset(es);
    }
    if v.Some? {
      var i :| 0 <= i < |es| && Covering(es[i], x) && es[i].typ == v.value;
      assert es[i] in multiset(fs);
    }
  }

  /** However the sort ordered a map whose types do not overlap, the greatest type wins everywhere. */
  lemma ApartGreatest(es: seq<Entry>, fs: seq<Entry>)
    requires multiset(es) == multiset(fs) && TypesApart(es) && NearlySorted(fs, 0, |fs|)
    ensures forall x :: Greatest(es, x, FirstCover(fs, x))
  {
    forall i, x ensures !Clash(fs, i, x) {
      if 0 <= i < |fs| - 1 {
        assert fs[i] in multiset(es) && fs[i + 1] in multiset(es);
        assert Apart(fs[i], fs[i + 1]);
      }
    }
    forall x ensures Greatest(es, x, FirstCover(fs, x)) {
      GreatestWins(fs, x);
      GreatestSame(fs, es, x, FirstCover(fs, x));
    }
  }

  /** Two entries are never sorted: an available range hides a reserved one inserted after it. */
  lemma AvailableHidesReserved()
    ensures var es := [Entry(0, 0, 100, 1), Entry(0, 50, 50, 2)];
      NearlySorted(es, 0, 2) && TypeAt(Build(es), 70) == Some(1) && !Greatest(es, 70, Some(1))
  {
    var es := [Entry(0, 0, 100, 1), Entry(0, 50, 50, 2)];
    assert Covering(es[1], 70);
    assert FirstCover(es, 70) == Some(1);
    BuildTypeAt(es, 70);
  }

  // ---------- From the tree back to entries ----------

  /** The entries e820_tree_convert writes, in order. */
  function Flatten(t: Tree): (es: seq<Entry>)
    ensures |es| == Count(t)
  {
    match t
    case Leaf => []
    case Node(l, _, _, _, r) => Flatten(l) + [Written(t)] + Flatten(r)
  }

  /** Addresses and lengths of the nodes fit 64-bit fields. */
  ghost predicate Short(t: Tree) {
    t.Node? ==> 0 <= t.min < WORD64 && t.max - t.min + 1 < WORD64 && Short(t.left) && Short(t.right)
  }

  lemma {:induction false} InsertShort(t: Tree, min: int, max: int, typ: nat)
    requires Short(t) && 0 <= min < WORD64 && max < WORD64 && max - min + 1 < WORD64
    ensures Short(Insert(t, min, max, typ))
  {
    if t.Node? {
      if min < t.min { InsertShort(t.left, min, if t.min > max then max else t.min - 1, typ); }
      if max > t.max { InsertShort(t.right, if t.max < min then min else t.max + 1, max, typ); }
    }
  }

  lemma {:induction false} BuildShort(es: seq<Entry>)
    requires AllFit(es)
    ensures Short(Build(es))
  {
    if es != [] {
      var e, before := es[|es| - 1], es[..|es| - 1];
      assert e in es;
      UpperExact(e);
      BuildShort(before);
      InsertShort(Build(before), e.addr, Upper(e), e.typ);
    }
  }

  /** Ascending and disjoint, in the window. */
  ghost predicate Ascending(es: seq<Entry>, lo: int, hi: int) {
    && (forall i :: 0 <= i < |es| ==> lo <= es[i].addr && es[i].addr + es[i].len <= hi + 1)
    && (forall i, j :: 0 <= i < j < |es| ==> es[i].addr + es[i].len <= es[j].addr)
  }

  /** The entry written for a node. */
  function Written(t: Tree): Entry
    requires t.Node?
  {
    Entry(0, t.min % WORD64, (t.max - t.min + 1) % WORD64, t.typ)
  }

  lemma WrittenExact(t: Tree)
    requires t.Node? && Short(t) && t.min <= t.max + 1
    ensures Written(t) == Entry(0, t.min, t.max - t.min + 1, t.typ)
  {
  }

  lemma AscendingJoin(es: seq<Entry>, e: Entry, fs: seq<Entry>, lo: int, hi: int)
    requires lo <= e.addr && e.addr + e.len <= hi + 1
    requires Ascending(es, lo, e.addr - 1) && Ascending(fs, e.addr + e.len, hi)
    ensures Ascending(es + [e] + fs, lo, hi)
  {
  }

  lemma {:induction false} FlattenAscending(t: Tree, lo: int, hi: int)
    requires Within(t, lo, hi) && Short(t)
    ensures Ascending(Flatten(t), lo, hi)
  {
    if t.Node? {
      hide Ascending, Written;
      FlattenAscending(t.left, lo, t.min - 1);
      FlattenAscending(t.right, t.max + 1, hi);
      WrittenExact(t);
      AscendingJoin(Flatten(t.left), Written(t), Flatten(t.right), lo, hi);
    } else {
      assert Flatten(t) == [];
    }
  }

  /** The flat map gives every address the type the tree gives it. */
  lemma {:induction false} FlattenTypeAt(t: Tree, lo: int, hi: int, x: int)
    requires Within(t, lo, hi) && Short(t)
    ensures FirstCover(Flatten(t), x) == TypeAt(t, x)
  {
    if t.Node? {
      hide FirstCover, Written, TypeAt, Within;
      WithinParts(t, lo, hi);
      FlattenTypeAt(t.left, lo, t.min - 1, x);
      FlattenTypeAt(t.right, t.max + 1, hi, x);
      TypeAtParts(t, lo, hi, x);
      WrittenExact(t);
      FirstCoverJoin(Flatten(t.left) + [Written(t)], Flatten(t.right), x);
      FirstCoverJoin(Flatten(t.left), [Written(t)], x);
      FirstCoverOne(Written(t), x);
    }
  }

  lemma WithinParts(t: Tree, lo: int, hi: int)
    requires t.Node? && Within(t, lo, hi)
    ensures Within(t.left, lo, t.min - 1) && Within(t.right, t.max + 1, hi) && t.min <= t.max + 1
  {
  }

  /** Reading the tree from left to right instead of searching it. */
  lemma TypeAtParts(t: Tree, lo: int, hi: int, x: int)
    requires t.Node? && Within(t, lo, hi)
    ensures TypeAt(t, x) ==
            if TypeAt(t.left, x).Some? then TypeAt(t.left, x)
            else if t.min <= x <= t.max then Some(t.typ)
            else TypeAt(t.right, x)
  {
    SearchComplete(t.left, lo, t.min - 1, x, 0);
    SearchComplete(t.right, t.max + 1, hi, x, 0);
  }

  lemma FirstCoverOne(e: Entry, x: int)
    ensures FirstCover([e], x) == if Covering(e, x) then Some(e.typ) else None
  {
    assert [e][1..] == [];
  }

  /** Sizes play no part. */
  predicate SameRegion(e: Entry, f: Entry) {
    e.addr == f.addr && e.len == f.len && e.typ == f.typ
  }

  lemma {:induction false} FirstCoverSame(es: seq<Entry>, fs: seq<Entry>, x: int)
    requires |es| == |fs| && forall i :: 0 <= i < |es| ==> SameRegion(es[i], fs[i])
    ensures FirstCover(es, x) == FirstCover(fs, x)
  {
    if es != [] { FirstCoverSame(es[1..], fs[1..], x); }
  }
}
