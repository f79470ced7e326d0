/** The descending sort of the BIOS memory map by type: kern/arch/x86/e820.c. */
module E820Sort {

  const MMAP_MAX := 128

  /** An entry of the memory map. All fields are unsigned words. */
  datatype Entry = Entry(size: nat, addr: nat, len: nat, typ: nat)

  // ---------- Exchanging through XOR ----------

  function Xor(a: nat, b: nat): (r: nat) {
    if a == 0 && b == 0 then 0 else (a + b) % 2 + 2 * Xor(a / 2, b / 2)
  }

  lemma XorParts(a: nat, b: nat)
    ensures Xor(a, b) / 2 == Xor(a / 2, b / 2)
    ensures Xor(a, b) % 2 == (a + b) % 2
  {
  }

  lemma {:induction false} XorCancels(a: nat, b: nat)
    ensures Xor(Xor(a, b), b) == a
    ensures Xor(Xor(a, b), a) == b
    decreases a + b
  {
    if a > 0 || b > 0 {
      hide Xor;
      XorCancels(a / 2, b / 2);
      var r := Xor(a, b);
      XorParts(a, b);
      XorParts(r, b);
      XorParts(r, a);
      Halves(r, b, a, Xor(r, b));
      Halves(r, a, b, Xor(r, a));
    }
  }

  /** Equal halves and equal parity make equal numbers. */
  lemma Halves(r: nat, b: nat, a: nat, x: nat)
    requires x % 2 == (r + b) % 2 && r % 2 == (a + b) % 2 && x / 2 == a / 2
    ensures x == a
  {
    assert x == 2 * (x / 2) + x % 2 && a == 2 * (a / 2) + a % 2;
  }

  lemma {:induction false} XorSelf(a: nat)
    ensures Xor(a, a) == 0
  {
    if a > 0 { XorSelf(a / 2); }
  }

  datatype Field = Size | Addr | Len | Type

  function Get(e: Entry, f: Field): nat {
    match f
    case Size => e.size
    case Addr => e.addr
    case Len => e.len
    case Type => e.typ
  }

  function Set(e: Entry, f: Field, v: nat): Entry {
    match f
    case Size => e.(size := v)
    case Addr => e.(addr := v)
    case Len => e.(len := v)
    case Type => e.(typ := v)
  }

  /** The macro SWAP on one field. On one and the same entry it erases the field. */
  method SwapField(t: array<Entry>, i: nat, j: nat, f: Field)
    requires i < t.Length && j < t.Length
    modifies t
    ensures i != j ==> t[..] == old(t[..][i := Set(t[i], f, Get(t[j], f))][j := Set(t[j], f, Get(t[i], f))])
    ensures i == j ==> t[..] == old(t[..][i := Set(t[i], f, 0)])
  {
    XorCancels(Get(t[i], f), Get(t[j], f));
    XorSelf(Get(t[i], f));
    t[i] := Set(t[i], f, Xor(Get(t[i], f), Get(t[j], f)));
    t[j] := Set(t[j], f, Xor(Get(t[i], f), Get(t[j], f)));
    t[i] := Set(t[i], f, Xor(Get(t[i], f), Get(t[j], f)));
  }

  method Swap(t: array<Entry>, i: nat, j: nat)
    requires i < t.Length && j < t.Length
    modifies t
    ensures i != j ==> t[..] == old(Swapped(t[..], i, j))
    ensures i == j ==> t[..] == old(t[..])[i := Entry(0, 0, 0, 0)]
  {
    SwapField(t, i, j, Size);
    SwapField(t, i, j, Addr);
    SwapField(t, i, j, Len);
    SwapField(t, i, j, Type);
  }

  function Swapped(s: seq<Entry>, i: nat, j: nat): (r: seq<Entry>)
    requires i < |s| && j < |s|
  {
    s[i := s[j]][j := s[i]]
  }

  // ---------- Rearranging a range ----------

  /** `r` is `s` with its entries from `lo` up to and without `hi` in some other order. */
  ghost predicate Shuffled(s: seq<Entry>, r: seq<Entry>, lo: nat, hi: nat) {
    && lo <= hi <= |s| == |r|
    && s[..lo] == r[..lo] && s[hi..] == r[hi..]
    && multiset(s[lo..hi]) == multiset(r[lo..hi])
  }

  lemma ShuffledSame(s: seq<Entry>, lo: nat, hi: nat)
    requires lo <= hi <= |s|
    ensures Shuffled(s, s, lo, hi)
  {
  }

  lemma ShuffledTrans(s: seq<Entry>, r: seq<Entry>, q: seq<Entry>, lo: nat, hi: nat)
    requires Shuffled(s, r, lo, hi) && Shuffled(r, q, lo, hi)
    ensures Shuffled(s, q, lo, hi)
  {
  }

  lemma ShuffledWider(s: seq<Entry>, r: seq<Entry>, lo: nat, hi: nat, lo': nat, hi': nat)
    requires Shuffled(s, r, lo, hi) && lo' <= lo && hi <= hi' <= |s|
    ensures Shuffled(s, r, lo', hi')
  {
    assert s[..lo'] == s[..lo][..lo'] && r[..lo'] == r[..lo][..lo'];
    assert s[hi'..] == s[hi..][hi' - hi..] && r[hi'..] == r[hi..][hi' - hi..];
    assert s[lo'..hi'] == s[..lo][lo'..] + s[lo..hi] + s[hi..][..hi' - hi];
    assert r[lo'..hi'] == r[..lo][lo'..] + r[lo..hi] + r[hi..][..hi' - hi];
  }

  lemma SwapShuffles(s: seq<Entry>, i: nat, j: nat, lo: nat, hi: nat)
    requires lo <= i < j < hi <= |s|
    ensures Shuffled(s, Swapped(s, i, j), lo, hi)
  {
    var r := Swapped(s, i, j);
    assert s[lo..hi] == s[lo..i] + [s[i]] + s[i + 1..j] + [s[j]] + s[j + 1..hi];
    assert r[lo..hi] == s[lo..i] + [s[j]] + s[i + 1..j] + [s[i]] + s[j + 1..hi];
  }

  /** Every entry of the shuffled range was somewhere in it before. */
  lemma ShuffledFrom(s: seq<Entry>, r: seq<Entry>, lo: nat, hi: nat, k: nat) returns (i: nat)
    requires Shuffled(s, r, lo, hi) && lo <= k < hi
    ensures lo <= i < hi && s[i] == r[k]
  {
    assert r[lo..hi][k - lo] in multiset(s[lo..hi]);
    var d :| 0 <= d < hi - lo && s[lo..hi][d] == r[k];
    i := lo + d;
  }

  /** What holds of every entry of a range still does after shuffling it. */
  lemma ShuffledAll(s: seq<Entry>, r: seq<Entry>, lo: nat, hi: nat, p: Entry -> bool)
    requires Shuffled(s, r, lo, hi) && forall k :: lo <= k < hi ==> p(s[k])
    ensures forall k :: lo <= k < hi ==> p(r[k])
  {
    forall k | lo <= k < hi
      ensures p(r[k])
    {
      var i := ShuffledFrom(s, r, lo, hi, k);
    }
  }

  // ---------- Partitioning ----------

  /** The last entry of the range, the pivot, has a strictly greater type than all others. */
  ghost predicate PivotGreatest(s: seq<Entry>, start: nat, end: nat)
    requires start <= end < |s|
  {
    forall k :: start <= k < end ==> s[k].typ < s[end].typ
  }

  /** The first entry from `from` on with a smaller type than the pivot; `end` if there is none. */
  method ScanUp(t: array<Entry>, from: nat, end: nat) returns (i: nat)
    requires from <= end < t.Length
    ensures from <= i <= end
    ensures forall k :: from <= k < i ==> t[k].typ >= t[end].typ
    ensures i < end ==> t[i].typ < t[end].typ
  {
    i := from;
    while t[i].typ >= t[end].typ && i < end
      invariant from <= i <= end
      invariant forall k :: from <= k < i ==> t[k].typ >= t[end].typ
      decreases end - i
    {
      i := i + 1;
    }
  }

  /** The last entry up to `from` with at least the pivot's type; `start` if there is none. */
  method ScanDown(t: array<Entry>, start: nat, from: nat, end: nat) returns (j: nat)
    requires start <= from <= end < t.Length
    ensures start <= j <= from
    ensures forall k :: j < k <= from ==> t[k].typ < t[end].typ
    ensures j > start ==> t[j].typ >= t[end].typ
  {
    j := from;
    while t[j].typ < t[end].typ && j > start
      invariant start <= j <= from
      invariant forall k :: j < k <= from ==> t[k].typ < t[end].typ
      decreases j
    {
      j := j - 1;
    }
  }

  ghost predicate AllFrom(s: seq<Entry>, lo: nat, hi: nat, pivot: nat)
    requires hi <= |s|
  {
    forall k :: lo <= k < hi ==> s[k].typ >= pivot
  }

  ghost predicate AllBelow(s: seq<Entry>, lo: nat, hi: nat, pivot: nat)
    requires hi <= |s|
  {
    forall k :: lo <= k < hi ==> s[k].typ < pivot
  }

  lemma SwapKeepsSides(s: seq<Entry>, i: nat, j: nat, start: nat, end: nat, pivot: nat)
    requires start <= i < j < end <= |s| && s[i].typ < pivot && (j > start ==> s[j].typ >= pivot)
    requires AllFrom(s, start, i, pivot) && AllBelow(s, j + 1, end, pivot)
    ensures AllFrom(Swapped(s, i, j), start, i + 1, pivot)
    ensures AllBelow(Swapped(s, i, j), j, end, pivot)
  {
  }

  /** If some entry is left before the place of the pivot, one with its type or a greater one was there. */
  lemma PivotPlace(s: seq<Entry>, r: seq<Entry>, start: nat, n: nat, end: nat)
    requires start <= n <= end < |s| && Shuffled(s, r, start, end)
    requires AllFrom(r, start, n, s[end].typ) && AllBelow(r, n, end, s[end].typ)
    ensures n == start <==> PivotGreatest(s, start, end)
  {
    if n == start {
      var p := (e: Entry) => e.typ < s[end].typ;
      forall k | start <= k < end ensures p(r[k]) {}
      ShuffledAll(r, s, start, end, p);
      assert forall k :: start <= k < end ==> p(s[k]);
    } else {
      var k := ShuffledFrom(s, r, start, end, start);
    }
  }

  /** Exchanging the pivot with the first of the smaller entries leaves it between the two sides. */
  lemma PivotPlaced(s: seq<Entry>, start: nat, n: nat, end: nat)
    requires start <= n <= end < |s|
    requires AllFrom(s, start, n, s[end].typ) && AllBelow(s, n, end, s[end].typ)
    ensures var r := if n == end then s else Swapped(s, n, end);
      && Shuffled(s, r, start, end + 1)
      && r[n] == s[end] && AllFrom(r, start, n, r[n].typ) && AllBelow(r, n + 1, end + 1, r[n].typ)
  {
    if n < end { SwapShuffles(s, n, end, start, end + 1); }
  }

  // ---------- The partition and the sort as functions ----------

  /** Exchange the outermost two entries that are on the wrong sides of the pivot, and so on inwards. */
  function Exchanged(s: seq<Entry>, lo: nat, hi: nat, pivot: nat): (r: seq<Entry>)
    requires lo <= hi <= |s|
    ensures |r| == |s|
    decreases hi - lo
  {
    if lo == hi then s
    else if s[lo].typ >= pivot then Exchanged(s, lo + 1, hi, pivot)
    else if s[hi - 1].typ < pivot then Exchanged(s, lo, hi - 1, pivot)
    else Exchanged(Swapped(s, lo, hi - 1), lo + 1, hi - 1, pivot)
  }

  /** The first entry of the range below the pivot, or its end. */
  function Boundary(s: seq<Entry>, lo: nat, hi: nat, pivot: nat): (n: nat)
    requires lo <= hi <= |s|
    ensures lo <= n <= hi
    decreases hi - lo
  {
    if lo == hi || s[lo].typ < pivot then lo else Boundary(s, lo + 1, hi, pivot)
  }

  /** The range with its last entry, the pivot, between the two sides, and the place of the pivot. */
  function Divided(s: seq<Entry>, lo: nat, hi: nat): (r: (seq<Entry>, nat))
    requires lo < hi <= |s|
    ensures |r.0| == |s| && lo <= r.1 < hi
  {
    var pivot := s[hi - 1].typ;
    var r := Exchanged(s, lo, hi - 1, pivot);
    var n := Boundary(r, lo, hi - 1, pivot);
    (Swapped(r, n, hi - 1), n)
  }

  /** Divide and sort both sides; a range of two is not looked at. */
  function Sorted(s: seq<Entry>, lo: nat, hi: nat): (r: seq<Entry>)
    requires hi <= |s|
    ensures |r| == |s|
    decreases hi - lo
  {
    if hi <= lo + 2 then s
    else
      var (p, n) := Divided(s, lo, hi);
      Sorted(Sorted(p, lo, n), n + 1, hi)
  }

  /** Some call of the sort passes the index before 0: a pivot that went to place 0. */
  predicate Wraps(s: seq<Entry>, hi: nat)
    requires hi <= |s|
    decreases hi
  {
    hi > 2 && var (p, n) := Divided(s, 0, hi); n == 0 || Wraps(p, n)
  }

  lemma {:induction false} ExchangedUp(s: seq<Entry>, lo: nat, k: nat, hi: nat, pivot: nat)
    requires lo <= k <= hi <= |s| && AllFrom(s, lo, k, pivot)
    ensures Exchanged(s, lo, hi, pivot) == Exchanged(s, k, hi, pivot)
    decreases k - lo
  {
    if lo < k { ExchangedUp(s, lo + 1, k, hi, pivot); }
  }

  lemma {:induction false} ExchangedDown(s: seq<Entry>, lo: nat, k: nat, hi: nat, pivot: nat)
    requires lo <= k <= hi <= |s| && AllBelow(s, k, hi, pivot)
    ensures Exchanged(s, lo, hi, pivot) == Exchanged(s, lo, k, pivot)
    decreases hi - lo
  {
    if k < hi {
      if s[lo].typ >= pivot { ExchangedDown(s, lo + 1, k, hi, pivot); } else { ExchangedDown(s, lo, k, hi - 1, pivot); }
    }
  }

  /** A pair that is exchanged is one the next round of the scans passes over. */
  lemma ExchangedPair(s: seq<Entry>, i: nat, j: nat, pivot: nat)
    requires i < j < |s| && s[i].typ < pivot <= s[j].typ
    ensures Exchanged(Swapped(s, i, j), i, j + 1, pivot) == Exchanged(s, i, j + 1, pivot)
  {
    var r := Swapped(s, i, j);
    assert Exchanged(r, i, j + 1, pivot) == Exchanged(r, i + 1, j + 1, pivot);
    ExchangedDown(r, i + 1, j, j + 1, pivot);
  }

  lemma ExchangedDone(s: seq<Entry>, i: nat, j: nat, pivot: nat)
    requires j <= i <= j + 1 <= |s|
    ensures Exchanged(s, i, j + 1, pivot) == s
  {
    if i == j {
      assert Exchanged(s, i, i, pivot) == Exchanged(s, i + 1, i + 1, pivot) == s;
    }
  }

  lemma {:induction false} BoundaryIs(s: seq<Entry>, lo: nat, n: nat, hi: nat, pivot: nat)
    requires lo <= n <= hi <= |s| && AllFrom(s, lo, n, pivot) && AllBelow(s, n, hi, pivot)
    ensures Boundary(s, lo, hi, pivot) == n
    decreases n - lo
  {
    if lo < n { BoundaryIs(s, lo + 1, n, hi, pivot); }
  }

  lemma DividedIs(s: seq<Entry>, r: seq<Entry>, start: nat, n: nat, end: nat)
    requires start <= n <= end < |s| && r == Exchanged(s, start, end, s[end].typ) && r[end] == s[end]
    requires AllFrom(r, start, n, s[end].typ) && AllBelow(r, n, end, s[end].typ)
    ensures Divided(s, start, end + 1) == (if n == end then r else Swapped(r, n, end), n)
  {
    hide Exchanged, AllFrom, AllBelow, Boundary;
    BoundaryIs(r, start, n, end, s[end].typ);
    assert Swapped(r, end, end) == r;
  }

  /** A range in descending order is left as it is. */
  lemma {:induction false} DescendingStays(s: seq<Entry>, lo: nat, hi: nat)
    requires lo <= hi <= |s| && forall i, j :: lo <= i < j < hi ==> s[i].typ >= s[j].typ
    ensures Sorted(s, lo, hi) == s
    decreases hi - lo
  {
    if hi > lo + 2 {
      var pivot := s[hi - 1].typ;
      ExchangedUp(s, lo, hi - 1, hi - 1, pivot);
      BoundaryIs(s, lo, hi - 1, hi - 1, pivot);
      assert Swapped(s, hi - 1, hi - 1) == s;
      DescendingStays(s, lo, hi - 1);
    }
  }

  /** How far the two scans have come: `i` and `j` bound what is not yet known to be on its side. */
  ghost predicate Parted(s: seq<Entry>, r: seq<Entry>, start: nat, i: nat, j: nat, end: nat) {
    && start <= i <= end < |s| && start <= j < end
    && Shuffled(s, r, start, end)
    && r[end] == s[end]
    && AllFrom(r, start, i, s[end].typ)
    && AllBelow(r, j + 1, end, s[end].typ)
    && (i >= j ==> AllBelow(r, i, end, s[end].typ))
    && i <= j + 1 && Exchanged(r, i, j + 1, s[end].typ) == Exchanged(s, start, end, s[end].typ)
  }

  lemma PartedFirst(s: seq<Entry>, start: nat, end: nat)
    requires start + 1 < end < |s|
    ensures Parted(s, s, start, start, end - 1, end)
  {
  }

  lemma FromAt(s: seq<Entry>, lo: nat, hi: nat, pivot: nat, k: nat)
    requires lo <= k < hi <= |s| && AllFrom(s, lo, hi, pivot)
    ensures s[k].typ >= pivot
  {
  }

  lemma BelowAt(s: seq<Entry>, lo: nat, hi: nat, pivot: nat, k: nat)
    requires lo <= k < hi <= |s| && AllBelow(s, lo, hi, pivot)
    ensures s[k].typ < pivot
  {
  }

  lemma FromJoin(s: seq<Entry>, lo: nat, n: nat, hi: nat, pivot: nat)
    requires lo <= n <= hi <= |s| && AllFrom(s, lo, n, pivot) && AllFrom(s, n, hi, pivot)
    ensures AllFrom(s, lo, hi, pivot)
  {
  }

  /** The two sides have no entry in common. */
  lemma SidesMeet(s: seq<Entry>, lo: nat, n: nat, m: nat, hi: nat, pivot: nat)
    requires lo <= m && n <= hi <= |s| && AllFrom(s, lo, n, pivot) && AllBelow(s, m, hi, pivot)
    ensures n <= m
  {
    hide AllFrom, AllBelow;
    if m < n {
      FromAt(s, lo, n, pivot, m);
      BelowAt(s, m, hi, pivot, m);
      assert false;
    }
  }

  /** The scans pass over what is on its side. */
  lemma ScansExchange(s: seq<Entry>, r: seq<Entry>, start: nat, i: nat, j: nat, i': nat, j': nat, end: nat)
    requires Parted(s, r, start, i, j, end) && i <= i' <= end && start <= j' <= j
    requires AllFrom(r, i, i', s[end].typ) && AllBelow(r, j' + 1, j + 1, s[end].typ)
    requires j' > start ==> r[j'].typ >= s[end].typ
    requires i' < end ==> r[i'].typ < s[end].typ
    ensures i' <= j' + 1 && Exchanged(r, i', j' + 1, s[end].typ) == Exchanged(s, start, end, s[end].typ)
  {
    hide Shuffled, Exchanged, AllFrom, AllBelow;
    FromJoin(r, start, i, i', s[end].typ);
    SidesMeet(r, start, i', j + 1, end, s[end].typ);
    SidesMeet(r, start, i', j' + 1, j + 1, s[end].typ);
    ExchangedUp(r, i, i', j + 1, s[end].typ);
    ExchangedDown(r, i', j' + 1, j + 1, s[end].typ);
  }

  /** One round of the loop of Partition: both scans, and an exchange if they have not met. */
  method Round(t: array<Entry>, start: nat, i: nat, j: nat, end: nat, ghost s: seq<Entry>) returns (i': nat, j': nat)
    requires Parted(s, t[..], start, i, j, end) && i < j
    modifies t
    ensures Parted(s, t[..], start, i', j', end)
    ensures i' >= i && j' <= j
    ensures i' == i ==> old(t[i].typ) < s[end].typ
    ensures i' == i && j' == j ==> t[i].typ >= s[end].typ
  {
    i' := ScanUp(t, i, end);
    j' := ScanDown(t, start, j, end);
    ghost var r := t[..];
    ScansExchange(s, r, start, i, j, i', j', end);
    if i' < j' {
      ExchangedPair(r, i', j', s[end].typ);
      Swap(t, i', j');
      SwapShuffles(r, i', j', start, end);
      ShuffledTrans(s, r, t[..], start, end);
      SwapKeepsSides(r, i', j', start, end, s[end].typ);
    }
  }

  /** The loop of Partition. */
  method Split(t: array<Entry>, start: nat, end: nat) returns (i: nat)
    requires start + 1 < end < t.Length
    modifies t
    ensures start <= i <= end && t[end] == old(t[end])
    ensures Shuffled(old(t[..]), t[..], start, end)
    ensures AllFrom(t[..], start, i, t[end].typ) && AllBelow(t[..], i, end, t[end].typ)
    ensures t[..] == Exchanged(old(t[..]), start, end, t[end].typ)
  {
    hide Shuffled, AllFrom, AllBelow;
    PartedFirst(t[..], start, end);
    ghost var s := t[..];
    i := start;
    var j: nat := end - 1;
    while i < j
      invariant Parted(s, t[..], start, i, j, end)
      decreases 2 * (end - i + j) + if t[i].typ < s[end].typ then 1 else 0
    {
      i, j := Round(t, start, i, j, end, s);
    }
    ExchangedDone(t[..], i, j, s[end].typ);
  }

  lemma PlacedShuffles(s: seq<Entry>, r: seq<Entry>, q: seq<Entry>, start: nat, end: nat)
    requires start <= end < |s| && Shuffled(s, r, start, end) && Shuffled(r, q, start, end + 1)
    ensures Shuffled(s, q, start, end + 1)
  {
    ShuffledWider(s, r, start, end, start, end + 1);
    ShuffledTrans(s, r, q, start, end + 1);
  }

  /**
    The pivot `t[end]` goes to the returned place `n`, with no smaller type before it and
    only smaller types after it. It goes to the very beginning only if its type is unmatched.
   */
  method Partition(t: array<Entry>, start: nat, end: nat) returns (n: nat)
    requires start <= end < t.Length
    modifies t
    ensures start <= n <= end
    ensures Shuffled(old(t[..]), t[..], start, end + 1)
    ensures start + 1 >= end ==> t[..] == old(t[..]) && n == start
    ensures start + 1 < end ==> t[n] == old(t[end])
    ensures start + 1 < end ==> AllFrom(t[..], start, n, t[n].typ) && AllBelow(t[..], n + 1, end + 1, t[n].typ)
    ensures start + 1 < end ==> (n == start <==> old(PivotGreatest(t[..], start, end)))
    ensures start + 1 < end ==> (t[..], n) == Divided(old(t[..]), start, end + 1)
  {
    hide *;
    if start + 1 < end {
      ghost var s := t[..];
      var i := Split(t, start, end);
      ghost var r := t[..];
      PivotPlace(s, r, start, i, end);
      PivotPlaced(r, start, i, end);
      DividedIs(s, r, start, i, end);
      if i != end {
        Swap(t, i, end);
      }
      PlacedShuffles(s, r, t[..], start, end);
      return i;
    }
    ShuffledSame(t[..], start, end + 1);
    return start;
  }

  // ---------- Sorting ----------

  /** What the sort achieves: descending, except that neighbours may be the wrong way round. */
  ghost predicate NearlySorted(s: seq<Entry>, lo: int, hi: int)
    requires 0 <= lo && hi <= |s|
  {
    forall i, j :: lo <= i && i + 2 <= j < hi ==> s[i].typ >= s[j].typ
  }

  /** Two sorted sides around a pivot are sorted together. */
  lemma NearlySortedJoin(s: seq<Entry>, lo: nat, n: nat, hi: nat)
    requires lo <= n < hi <= |s|
    requires NearlySorted(s, lo, n) && NearlySorted(s, n + 1, hi)
    requires AllFrom(s, lo, n, s[n].typ) && AllBelow(s, n + 1, hi, s[n].typ)
    ensures NearlySorted(s, lo, hi)
  {
  }

  /** Sorting a side keeps it on its side of the pivot, and does not touch the other one. */
  lemma ShuffledSides(s: seq<Entry>, r: seq<Entry>, lo: nat, hi: nat, pivot: nat)
    requires Shuffled(s, r, lo, hi)
    ensures AllFrom(s, lo, hi, pivot) ==> AllFrom(r, lo, hi, pivot)
    ensures AllBelow(s, lo, hi, pivot) ==> AllBelow(r, lo, hi, pivot)
    ensures forall k :: 0 <= k < lo || hi <= k < |s| ==> r[k] == s[k]
  {
    if AllFrom(s, lo, hi, pivot) { ShuffledAll(s, r, lo, hi, (e: Entry) => e.typ >= pivot); }
    if AllBelow(s, lo, hi, pivot) { ShuffledAll(s, r, lo, hi, (e: Entry) => e.typ < pivot); }
    forall k | 0 <= k < lo || hi <= k < |s|
      ensures r[k] == s[k]
    {
      if k < lo { assert s[k] == s[..lo][k]; } else { assert s[k] == s[hi..][k - hi]; }
    }
  }

  /** The range has at most one entry, or its greatest type occurs in it more than once. */
  ghost predicate GreatestRepeated(s: seq<Entry>, lo: nat, hi: nat)
    requires lo <= hi <= |s|
  {
    hi <= lo + 1 || exists a, b :: TwoGreatest(s, lo, hi, a, b)
  }

  ghost predicate TwoGreatest(s: seq<Entry>, lo: nat, hi: nat, a: int, b: int)
    requires hi <= |s|
  {
    lo <= a < hi && lo <= b < hi && a != b && s[a].typ == s[b].typ && forall k :: lo <= k < hi ==> s[k].typ <= s[a].typ
  }

  lemma {:induction false} CountTwo(u: seq<Entry>, a: nat, b: nat)
    requires a < b < |u| && u[a] == u[b]
    ensures multiset(u)[u[a]] >= 2
  {
    assert u == u[..b] + u[b..];
    assert u[..b][a] in multiset(u[..b]) && u[b..][0] in multiset(u[b..]);
  }

  lemma {:induction false} FindOther(w: seq<Entry>, a: nat) returns (b: nat)
    requires a < |w| && multiset(w)[w[a]] >= 2
    ensures b < |w| && b != a && w[b] == w[a]
  {
    assert w == w[..a] + [w[a]] + w[a + 1..];
    if w[a] in multiset(w[..a]) {
      b :| 0 <= b < a && w[..a][b] == w[a];
    } else {
      assert w[a] in multiset(w[a + 1..]);
      var k :| 0 <= k < |w| - a - 1 && w[a + 1..][k] == w[a];
      b := a + 1 + k;
    }
  }

  /** Two entries of a list are also two entries of any rearrangement of it. */
  lemma Elsewhere(u: seq<Entry>, w: seq<Entry>, a: nat, b: nat) returns (a': nat, b': nat)
    requires a < |u| && b < |u| && a != b && multiset(u) == multiset(w)
    ensures a' < |w| && b' < |w| && a' != b' && w[a'] == u[a] && w[b'] == u[b]
  {
    assert u[a] in multiset(w) && u[b] in multiset(w);
    a' :| 0 <= a' < |w| && w[a'] == u[a];
    if u[a] != u[b] {
      b' :| 0 <= b' < |w| && w[b'] == u[b];
    } else {
      CountTwo(u, if a < b then a else b, if a < b then b else a);
      b' := FindOther(w, a');
    }
  }

  lemma ShuffledRepeated(s: seq<Entry>, r: seq<Entry>, lo: nat, hi: nat)
    requires Shuffled(s, r, lo, hi) && GreatestRepeated(s, lo, hi)
    ensures GreatestRepeated(r, lo, hi)
  {
    if hi > lo + 1 {
      var a, b :| TwoGreatest(s, lo, hi, a, b);
      var a', b' := Elsewhere(s[lo..hi], r[lo..hi], a - lo, b - lo);
      ShuffledAll(s, r, lo, hi, (e: Entry) => e.typ <= s[a].typ);
      assert r[lo + a'] == s[a] && r[lo + b'] == s[b];
      assert TwoGreatest(r, lo, hi, lo + a', lo + b');
    }
  }

  /** The greatest type, if repeated, stays repeated on the left of the pivot. */
  lemma RepeatedLeft(s: seq<Entry>, lo: nat, n: nat, hi: nat)
    requires lo <= n < hi <= |s| && lo + 2 < hi && GreatestRepeated(s, lo, hi)
    requires AllFrom(s, lo, n, s[n].typ) && AllBelow(s, n + 1, hi, s[n].typ)
    ensures n > lo && GreatestRepeated(s, lo, n)
  {
    var a, b :| TwoGreatest(s, lo, hi, a, b);
    if s[n].typ < s[a].typ {
      assert TwoGreatest(s, lo, n, a, b);
    } else if n > lo + 1 {
      assert TwoGreatest(s, lo, n, lo, lo + 1);
    }
  }

  /** So it is after the partition of `s` to `p`. */
  lemma LeftRepeated(s: seq<Entry>, p: seq<Entry>, lo: nat, n: nat, hi: nat)
    requires lo <= n < hi <= |s| && lo + 2 < hi && Shuffled(s, p, lo, hi)
    requires AllFrom(p, lo, n, p[n].typ) && AllBelow(p, n + 1, hi, p[n].typ)
    ensures GreatestRepeated(s, lo, hi) ==> n > lo && GreatestRepeated(p, lo, n)
  {
    if GreatestRepeated(s, lo, hi) {
      ShuffledRepeated(s, p, lo, hi);
      RepeatedLeft(p, lo, n, hi);
    }
  }

  lemma AtMostTwo(s: seq<Entry>, lo: nat, hi: int)
    requires hi <= lo + 2 && 0 <= hi <= |s|
    ensures NearlySorted(s, lo, hi)
  {
  }

  /** A range of at most two entries is left as it is. */
  ghost predicate TwoStay(s: seq<Entry>, r: seq<Entry>, start: nat, end: int) {
    start + 1 >= end ==> r == s
  }

  lemma TwoStayOr(s: seq<Entry>, r: seq<Entry>, start: nat, end: int)
    requires start + 1 < end || r == s
    ensures TwoStay(s, r, start, end)
  {
  }

  /** The value of an index passed as an unsigned byte. */
  function Narrowed(k: int): int {
    k % 256
  }

  /** What is left to see once both sides are sorted: `s` was partitioned to `p`, then `q`, then `r`. */
  lemma SidesSorted(s: seq<Entry>, p: seq<Entry>, q: seq<Entry>, r: seq<Entry>, lo: nat, n: nat, hi: nat)
    requires lo <= n < hi <= |s|
    requires Shuffled(s, p, lo, hi) && AllFrom(p, lo, n, p[n].typ) && AllBelow(p, n + 1, hi, p[n].typ)
    requires Shuffled(p, q, lo, n) && NearlySorted(q, lo, n)
    requires Shuffled(q, r, n + 1, hi) && NearlySorted(r, n + 1, hi)
    ensures Shuffled(s, r, lo, hi) && NearlySorted(r, lo, hi)
  {
    ShuffledSides(p, q, lo, n, p[n].typ);
    ShuffledSides(q, r, n + 1, hi, p[n].typ);
    ShuffledWider(p, q, lo, n, lo, hi);
    ShuffledWider(q, r, n + 1, hi, lo, hi);
    ShuffledTrans(s, p, q, lo, hi);
    ShuffledTrans(s, q, r, lo, hi);
    NearlySortedJoin(r, lo, n, hi);
  }

  lemma SortedUnfolds(s: seq<Entry>, p: seq<Entry>, lo: nat, n: nat, hi: nat)
    requires lo + 2 < hi <= |s| && (p, n) == Divided(s, lo, hi)
    ensures Sorted(s, lo, hi) == Sorted(Sorted(p, lo, n), n + 1, hi)
    ensures lo == 0 ==> (Wraps(s, hi) <==> n == 0 || Wraps(p, n))
  {
  }

  lemma SortedFew(s: seq<Entry>, lo: nat, hi: nat)
    requires hi <= lo + 2 && hi <= |s|
    ensures Sorted(s, lo, hi) == s && (lo == 0 ==> !Wraps(s, hi))
  {
  }

  lemma NarrowedExact(k: int)
    requires k < MMAP_MAX
    ensures Narrowed(k) == k <==> k >= 0
  {
  }

  /**
    The sort, with indices that are integers. The source passes `n - 1` as an unsigned byte:
    `exact` tells whether the byte was that same number in every call of this run.
   */
  method QSort(t: array<Entry>, start: nat, end: int) returns (ghost exact: bool)
    requires start <= end + 1 <= t.Length == MMAP_MAX
    modifies t
    ensures Shuffled(old(t[..]), t[..], start, end + 1)
    ensures NearlySorted(t[..], start, end + 1)
    ensures TwoStay(old(t[..]), t[..], start, end)
    ensures t[..] == Sorted(old(t[..]), start, end + 1)
    ensures start == 0 ==> (exact <==> !Wraps(old(t[..]), end + 1))
    ensures start > 0 || old(GreatestRepeated(t[..], start, end + 1)) ==> exact
    ensures start == 0 && end > 1 && old(PivotGreatest(t[..], start, end)) ==> !exact
    decreases end + 1 - start
  {
    hide *;
    ghost var s := t[..];
    if start + 1 < end {
      var n: int := Partition(t, start, end);
      ghost var p := t[..];
      LeftRepeated(s, p, start, n, end + 1);
      exact := QSort(t, start, n - 1);
      NarrowedExact(n - 1);
      exact := exact && Narrowed(n - 1) == n - 1;
      ghost var q := t[..];
      ghost var right := QSort(t, n + 1, end);
      SidesSorted(s, p, q, t[..], start, n, end + 1);
      SortedUnfolds(s, p, start, n, end + 1);
    } else {
      SortedFew(s, start, end + 1);
      exact := true;
      ShuffledSame(s, start, end + 1);
      AtMostTwo(s, start, end + 1);
    }
    TwoStayOr(s, t[..], start, end);
  }

  /** Three entries whose last one has the greatest type are enough for the byte to wrap. */
  method SortWraps(t: array<Entry>) returns (ghost exact: bool)
    requires t.Length == MMAP_MAX && t[0].typ == t[1].typ == 1 && t[2].typ == 2
    modifies t
    ensures !exact
  {
    assert PivotGreatest(t[..], 0, 2);
    exact := QSort(t, 0, 2);
  }
}
