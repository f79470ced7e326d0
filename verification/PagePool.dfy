/** The stack of free virtual pages: kern/vm_pool.c. */
module PagePool {
  import opened Machine
  import opened SeqLists

  const POOL_ERROR := 1

  predicate Aligned(v: int) {
    v % PAGE == 0
  }

  /** The kernel image, and the bitmap, stack and page tables behind it, are not pooled. */
  datatype Layout = Layout(kernStart: nat, kernEnd: nat, bitmap: nat, start: nat)

  predicate Reserved(l: Layout, v: int) {
    l.kernStart <= v < l.kernEnd || l.bitmap <= v < l.start
  }

  /** Greatest first, all below `v`. */
  ghost predicate Descends(c: seq<int>, v: int) {
    (forall i :: 0 <= i < |c| ==> c[i] < v) && forall i, j :: 0 <= i < j < |c| ==> c[i] > c[j]
  }

  lemma DescendsNext(c: seq<int>, v: int, w: int)
    requires Descends(c, v) && v < w
    ensures Descends([v] + c, w)
  {
  }

  lemma DescendsOn(c: seq<int>, v: int, w: int)
    requires Descends(c, v) && v <= w
    ensures Descends(c, w)
  {
  }

  lemma DescendsEmpty(v: int)
    ensures Descends([], v)
  {
  }

  /** So no page is there twice. */
  lemma DescendsNoDup(c: seq<int>, v: int)
    requires Descends(c, v)
    ensures NoDup(c)
  {
  }

  class PagePool {
    const stack: array<int>
    var top: nat

    /** The stored pages, the next one to be handed out first. */
    ghost function Contents(): seq<int>
      reads this, stack
      requires top <= stack.Length
    {
      stack[top..]
    }

    constructor (size: nat)
      ensures fresh(stack) && stack.Length == size && top == size && Contents() == []
    {
      stack := new int[size];
      top := size;
    }

    /** The last page of the stack is never handed out. */
    method Alloc() returns (page: int)
      requires top <= stack.Length
      modifies this`top
      ensures top <= stack.Length
      ensures old(|Contents()| > 1) ==> page == old(Contents()[0]) && Contents() == old(Contents()[1..])
      ensures old(|Contents()| <= 1) ==> page == POOL_ERROR && Contents() == old(Contents())
    {
      if top + 1 < stack.Length {
        page := stack[top];
        top := top + 1;
      } else {
        page := POOL_ERROR;
      }
    }

    method Free(v: int) returns (ok: bool)
      requires top <= stack.Length
      modifies this`top, stack
      ensures top <= stack.Length
      ensures ok <==> old(|Contents()|) < stack.Length && Aligned(v)
      ensures Contents() == if ok then [v] + old(Contents()) else old(Contents())
    {
      ok := top > 0 && Aligned(v);
      if ok {
        top := top - 1;
        stack[top] := v;
      }
    }

    /** Every page outside the reserved ranges is pushed once, page 0 first: the last one is the first to be handed out. */
    method Setup(l: Layout)
      requires top <= stack.Length
      requires stack.Length == HIGHMEM / PAGE
      modifies this`top, stack
      ensures top <= stack.Length
      ensures Descends(Contents(), HIGHMEM)
      ensures forall v :: v in Contents() <==> 0 <= v < HIGHMEM && Aligned(v) && !Reserved(l, v)
      ensures !Reserved(l, 0) ==> Contents() != [] && Contents()[|Contents()| - 1] == 0
    {
      hide Descends;
      top := stack.Length;
      var v := 0;
      DescendsEmpty(v);
      while v < HIGHMEM
        invariant 0 <= v <= HIGHMEM && Aligned(v) && top <= stack.Length
        invariant |Contents()| <= v / PAGE
        invariant Descends(Contents(), v)
        invariant forall u :: u in Contents() <==> 0 <= u < v && Aligned(u) && !Reserved(l, u)
        invariant !Reserved(l, 0) && v > 0 ==> Contents() != [] && Contents()[|Contents()| - 1] == 0
      {
        if !Reserved(l, v) {
          DescendsNext(Contents(), v, v + PAGE);
          var ok := Free(v);
        } else {
          DescendsOn(Contents(), v, v + PAGE);
        }
        v := v + PAGE;
      }
    }
  }
}
