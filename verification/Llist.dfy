/**
  The circular doubly linked lists of the kernel, over heap nodes, and the sequences
  they stand for. Every other module takes its queues to be those sequences.
 */
module Llist {
  import opened SeqLists

  class Node {
    var next: Node
    var prev: Node

    constructor ()
      ensures next == this && prev == this
    {
      next, prev := this, this;
    }
  }

  function Succ(i: nat, n: nat): (r: nat)
    requires i < n
    ensures r < n
  {
    if i + 1 == n then 0 else i + 1
  }

  ghost function Head(s: seq<Node>): Node? {
    if s == [] then null else s[0]
  }

  /** Following `next` from `h` visits exactly `s` and comes back, and `prev` walks it backwards. */
  ghost predicate Ring(h: Node?, s: seq<Node>)
    reads s
  {
    && h == Head(s)
    && NoDup(s)
    && forall i :: 0 <= i < |s| ==> s[i].next == s[Succ(i, |s|)] && s[Succ(i, |s|)].prev == s[i]
  }

  /** Two sequences read from the same head through the same pointers are the same. */
  lemma RingUnique(h: Node?, s: seq<Node>, t: seq<Node>)
    requires Ring(h, s) && Ring(h, t)
    ensures s == t
  {
    if s != [] && t != [] {
      if |s| <= |t| { Wraps(h, s, t); } else { Wraps(h, t, s); }
    }
  }

  lemma Wraps(h: Node?, s: seq<Node>, t: seq<Node>)
    requires Ring(h, s) && Ring(h, t) && 0 < |s| <= |t|
    ensures s == t[..|s|]
    ensures |s| < |t| ==> t[|s|] == t[0]
  {
    Prefix(h, s, t, |s|);
    var k := |s| - 1;
    assert s[..|s|][k] == t[..|s|][k];
    assert s[k].next == s[Succ(k, |s|)] && t[k].next == t[Succ(k, |t|)];
  }

  lemma {:induction false} Prefix(h: Node?, s: seq<Node>, t: seq<Node>, k: nat)
    requires Ring(h, s) && Ring(h, t) && k <= |s| && k <= |t|
    ensures s[..k] == t[..k]
  {
    if k > 1 {
      Prefix(h, s, t, k - 1);
      assert s[..k - 1][k - 2] == t[..k - 1][k - 2];
      assert s[k - 2].next == s[Succ(k - 2, |s|)];
      assert t[k - 2].next == t[Succ(k - 2, |t|)];
      assert s[..k] == s[..k - 1] + [s[k - 1]];
      assert t[..k] == t[..k - 1] + [t[k - 1]];
    }
  }

  /** A ring read from its (`k`)th node instead of its head. */
  lemma Rotated(h: Node?, s: seq<Node>, k: nat)
    requires Ring(h, s) && k < |s|
    ensures Ring(s[k], s[k..] + s[..k])
  {
    var r := s[k..] + s[..k];
    forall i | 0 <= i < |r|
      ensures r[i].next == r[Succ(i, |r|)] && r[Succ(i, |r|)].prev == r[i]
    {
      var j := if i < |s| - k then i + k else i + k - |s|;
      assert r[i] == s[j];
      assert r[Succ(i, |r|)] == s[Succ(j, |s|)];
    }
  }

  ghost function Put(m: map<Node, Node>, k: Node, v: Node): map<Node, Node> {
    m[k := v]
  }

  ghost predicate Linked(s: seq<Node>, next: map<Node, Node>, prev: map<Node, Node>) {
    && (forall n :: n in s ==> n in next && n in prev)
    && NoDup(s)
    && forall i :: 0 <= i < |s| ==> next[s[i]] == s[Succ(i, |s|)] && prev[s[Succ(i, |s|)]] == s[i]
  }

  lemma AppendLinks(s: seq<Node>, e: Node, next: map<Node, Node>, prev: map<Node, Node>)
    requires Linked(s, next, prev) && e !in s && s != []
    ensures Linked(s + [e], Put(Put(next, e, s[0]), s[|s| - 1], e), Put(Put(prev, e, s[|s| - 1]), s[0], e))
  {
    var next' := Put(Put(next, e, s[0]), s[|s| - 1], e);
    var prev' := Put(Put(prev, e, s[|s| - 1]), s[0], e);
    var r := s + [e];
    forall i | 0 <= i < |r|
      ensures next'[r[i]] == r[Succ(i, |r|)] && prev'[r[Succ(i, |r|)]] == r[i]
    {
      if i < |s| - 1 { assert r[Succ(i, |r|)] == s[Succ(i, |s|)]; }
    }
  }

  lemma WithoutNoDup(s: seq<Node>, k: nat)
    requires NoDup(s) && k < |s|
    ensures var r := s[..k] + s[k + 1..]; NoDup(r) && forall n :: n in r ==> n in s
  {
  }

  lemma UnlinkLinks(s: seq<Node>, k: nat, next: map<Node, Node>, prev: map<Node, Node>)
    requires Linked(s, next, prev) && k < |s|
    ensures Linked(s[..k] + s[k + 1..], Put(next, prev[s[k]], next[s[k]]), Put(prev, next[s[k]], prev[s[k]]))
  {
    hide NoDup;
    NeighbourLinks(s, k, next, prev);
    var r := s[..k] + s[k + 1..];
    WithoutNoDup(s, k);
    forall i | 0 <= i < |r|
      ensures Put(next, prev[s[k]], next[s[k]])[r[i]] == r[Succ(i, |r|)]
      ensures Put(prev, next[s[k]], prev[s[k]])[r[Succ(i, |r|)]] == r[i]
    {
      UnlinkLinkAt(s, k, next, prev, i);
    }
  }

  lemma UnlinkLinkAt(s: seq<Node>, k: nat, next: map<Node, Node>, prev: map<Node, Node>, i: nat)
    requires Linked(s, next, prev) && k < |s| && i < |s| - 1
    ensures var r := s[..k] + s[k + 1..]; var after := r[Succ(i, |r|)];
      && Put(next, prev[s[k]], next[s[k]])[r[i]] == after
      && Put(prev, next[s[k]], prev[s[k]])[after] == r[i]
  {
    hide NoDup;
    NeighbourLinks(s, k, next, prev);
    var r := s[..k] + s[k + 1..];
    var j := if i < k then i else i + 1;
    var j' := if j == Pred(k, |s|) then Succ(k, |s|) else Succ(j, |s|);
    assert r[i] == s[j];
    var x := Succ(i, |r|);
    assert j' == if x < k then x else x + 1;
    assert r[x] == s[j'];
    Distinct(s, j, Pred(k, |s|));
    Distinct(s, j', Succ(k, |s|));
    assert next[s[j]] == s[Succ(j, |s|)] && prev[s[Succ(j, |s|)]] == s[j];
  }

  lemma Distinct(s: seq<Node>, i: nat, j: nat)
    requires NoDup(s) && i < |s| && j < |s|
    ensures s[i] == s[j] <==> i == j
  {
  }

  lemma MergeLinks(s: seq<Node>, t: seq<Node>, next: map<Node, Node>, prev: map<Node, Node>)
    requires Linked(s, next, prev) && Linked(t, next, prev) && s != [] && t != []
    requires forall n :: n in s ==> n !in t
    ensures Linked(s + t, Put(Put(next, s[|s| - 1], t[0]), t[|t| - 1], s[0]),
                   Put(Put(prev, s[0], t[|t| - 1]), t[0], s[|s| - 1]))
  {
    var r := s + t;
    Joined(s, t);
    forall i | 0 <= i < |r|
      ensures Put(Put(next, s[|s| - 1], t[0]), t[|t| - 1], s[0])[r[i]] == r[Succ(i, |r|)]
      ensures Put(Put(prev, s[0], t[|t| - 1]), t[0], s[|s| - 1])[r[Succ(i, |r|)]] == r[i]
    {
      Distinct(r, i, |s| - 1);
      Distinct(r, i, |r| - 1);
      Distinct(r, Succ(i, |r|), 0);
      Distinct(r, Succ(i, |r|), |s|);
      if i < |s| {
        assert next[s[i]] == s[Succ(i, |s|)] && prev[s[Succ(i, |s|)]] == s[i];
      } else {
        var j := i - |s|;
        assert next[t[j]] == t[Succ(j, |t|)] && prev[t[Succ(j, |t|)]] == t[j];
      }
    }
  }

  lemma Joined(s: seq<Node>, t: seq<Node>)
    requires NoDup(s) && NoDup(t) && forall n :: n in s ==> n !in t
    ensures NoDup(s + t)
  {
    var r := s + t;
    forall i, j | 0 <= i < j < |r|
      ensures r[i] != r[j]
    {
      assert r[j] == if j < |s| then s[j] else t[j - |s|];
      assert r[i] == if i < |s| then s[i] else t[i - |s|];
      if i < |s| <= j { assert r[i] in s && r[j] in t; }
    }
  }

  function Pred(i: nat, n: nat): (r: nat)
    requires i < n
    ensures r < n && Succ(r, n) == i
  {
    if i == 0 then n - 1 else i - 1
  }

  lemma NeighbourLinks(s: seq<Node>, k: nat, next: map<Node, Node>, prev: map<Node, Node>)
    requires Linked(s, next, prev) && k < |s|
    ensures next[s[k]] == s[Succ(k, |s|)]
    ensures prev[s[k]] == s[Pred(k, |s|)]
  {
    assert prev[s[Succ(Pred(k, |s|), |s|)]] == s[Pred(k, |s|)];
  }

  ghost function Nexts(s: seq<Node>): (m: map<Node, Node>)
    reads s
  {
    map n | n in s :: n.next
  }

  ghost function Prevs(s: seq<Node>): (m: map<Node, Node>)
    reads s
  {
    map n | n in s :: n.prev
  }

  lemma RingLinks(s: seq<Node>, all: seq<Node>)
    requires forall n :: n in s ==> n in all
    ensures s != [] ==> (Ring(s[0], s) <==> Linked(s, Nexts(all), Prevs(all)))
  {
    if s != [] {
      forall i | 0 <= i < |s|
        ensures Nexts(all)[s[i]] == s[i].next && Prevs(all)[s[Succ(i, |s|)]] == s[Succ(i, |s|)].prev
      {
      }
    }
  }

  // ---------- A node that is added twice ----------

  /**
    The list behind its (`k`)th node is cut off: from the head `next` goes to that node and
    back, or stays there if it was the last one, and `prev` goes elsewhere.
   */
  ghost predicate Cut(s: seq<Node>, k: nat)
    reads s
  {
    && k < |s|
    && (forall i :: 0 <= i < k ==> s[i].next == s[i + 1])
    && s[k].next == (if k == |s| - 1 then s[k] else s[0]) && s[0].prev == s[k]
    && (k > 0 ==> s[k].prev == s[|s| - 1])
  }

  /** Only a list that is added its own head again is still a ring, and of that node alone. */
  lemma CutOff(s: seq<Node>, k: nat)
    requires NoDup(s) && Cut(s, k)
    ensures k == 0 ==> Ring(s[0], [s[0]])
    ensures k > 0 ==> forall r :: !Ring(s[0], r)
  {
    if k == 0 {
      Single(s[0]);
    } else {
      forall r ensures !Ring(s[0], r) {
        if Ring(s[0], r) {
          Walked(s, k, r, k - 1);
          RingBack(s[0], r, s[k - 1]);
        }
      }
    }
  }

  lemma RingBack(h: Node?, r: seq<Node>, n: Node)
    requires Ring(h, r) && n in r
    ensures n.next in r && n.next.prev == n
  {
    var i :| 0 <= i < |r| && r[i] == n;
    assert r[Succ(i, |r|)] == n.next;
  }

  /** A ring holds every node reached from its head. */
  lemma {:induction false} Walked(s: seq<Node>, k: nat, r: seq<Node>, j: nat)
    requires Cut(s, k) && Ring(s[0], r) && j <= k
    ensures s[j] in r
  {
    if j > 0 {
      Walked(s, k, r, j - 1);
      RingBack(s[0], r, s[j - 1]);
    }
  }

  /** The pointers after the writes of LLIST_ADD for the (`k`)th node of the list itself. */
  lemma CutLinks(s: seq<Node>, k: nat, next: map<Node, Node>, prev: map<Node, Node>)
    requires Linked(s, next, prev) && k < |s|
    ensures var (z, n) := (s[|s| - 1], |s|);
      var (next', prev') := (Put(Put(next, s[k], s[0]), z, s[k]), Put(Put(prev, s[k], z), s[0], s[k]));
      && (forall i :: 0 <= i < k ==> next'[s[i]] == s[i + 1])
      && next'[s[k]] == (if k == n - 1 then s[k] else s[0]) && prev'[s[0]] == s[k]
      && (k > 0 ==> prev'[s[k]] == z)
  {
  }

  lemma CutRead(s: seq<Node>, k: nat, r: seq<Node>)
    requires k < |s| && forall n :: n in s ==> n in r
    requires forall i :: 0 <= i < k ==> Nexts(r)[s[i]] == s[i + 1]
    requires Nexts(r)[s[k]] == (if k == |s| - 1 then s[k] else s[0]) && Prevs(r)[s[0]] == s[k]
    requires k > 0 ==> Prevs(r)[s[k]] == s[|s| - 1]
    ensures Cut(s, k)
  {
  }

  /** A list variable: `sched_ready`, `sched_blocked`, the `wait_list` of a process. */
  class List {
    var head: Node?

    constructor ()
      ensures head == null && Ring(head, [])
    {
      head := null;
    }

    /**
      The node goes to the end of the list. The macro does not look whether it is on the
      list already: then it cuts the list off behind the node, see CutOff.
     */
    method Add(e: Node, ghost s: seq<Node>)
      requires Ring(head, s)
      modifies this, e, if s == [] then {} else {s[0], s[|s| - 1]}
      ensures e !in s ==> Ring(head, s + [e])
      ensures e in s ==> head == old(head) && Cut(s, IndexOf(s, e))
    {
      hide Ring, Linked, IndexOf, Cut;
      ghost var r := s + [e];
      ghost var next, prev := Nexts(r), Prevs(r);
      RingHead(head, s);
      RingLinks(s, r);
      if head == null {
        head := e;
        e.next, e.prev := e, e;
        Single(e);
        assert r == [e];
      } else {
        NeighbourLinks(s, 0, next, prev);
        assert s[0] in s && s[|s| - 1] in s;
        Attach(head, e, r);
        if e !in s {
          AppendLinks(s, e, next, prev);
          RingLinks(r, r);
        } else {
          CutLinks(s, IndexOf(s, e), next, prev);
          CutRead(s, IndexOf(s, e), r);
        }
      }
    }

    /**
      The macro first unlinks the node from its neighbours, whatever list `s` they are on,
      and only then compares it with the head of the list it was given.
     */
    method Remove(e: Node, ghost s: seq<Node>)
      requires s != [] && Ring(s[0], s) && e in s && (head in s ==> head == s[0])
      modifies this, {e.prev, e.next}
      ensures Ring(Head(SeqLists.Remove(s, e)), SeqLists.Remove(s, e))
      ensures head == if old(head) == e then Head(SeqLists.Remove(s, e)) else old(head)
    {
      hide Ring, Linked, SeqLists.Remove, NoDup, IndexOf;
      ghost var k := IndexOf(s, e);
      RingHead(s[0], s);
      Distinct(s, 0, k);
      RemovedHead(s, k);
      Unlink(e, s, k);
      if e == head {
        if head.next == head && head.prev == head {
          head := null;
        } else {
          head := head.next;
        }
      }
      RemovedRing(s, k);
    }

    /** Both heads now read the one ring, each from its own place. */
    method Merge(l: List, ghost s: seq<Node>, ghost t: seq<Node>)
      requires Ring(head, s) && Ring(l.head, t) && s != [] && t != []
      requires forall n :: n in s ==> n !in t
      modifies s[0], s[|s| - 1], t[0], t[|t| - 1]
      ensures Ring(head, s + t)
      ensures Ring(l.head, t + s)
    {
      hide Ring, Linked, NoDup;
      ghost var r := s + t;
      ghost var next, prev := Nexts(r), Prevs(r);
      RingHead(head, s);
      RingHead(l.head, t);
      RingLinks(s, r);
      RingLinks(t, r);
      NeighbourLinks(s, 0, next, prev);
      NeighbourLinks(t, 0, next, prev);
      MergeLinks(s, t, next, prev);
      assert s[0] in s && t[0] in t && s[|s| - 1] in s && t[|t| - 1] in t;
      Splice(head, l.head, r);
      MergedRings(s, t);
    }
  }

  /** The pointer writes of LLIST_ADD for a list that is not empty. */
  method Attach(h: Node, e: Node, ghost r: seq<Node>)
    requires {h, e, h.prev} <= set n | n in r
    modifies e, h`prev, h.prev`next
    ensures Nexts(r) == Put(Put(old(Nexts(r)), e, h), old(h.prev), e)
    ensures Prevs(r) == Put(Put(old(Prevs(r)), e, old(h.prev)), h, e)
  {
    var last := h.prev;
    SetPrev(e, last, r);
    SetNext(e, h, r);
    SetNext(last, e, r);
    SetPrev(h, e, r);
  }

  method SetNext(n: Node, m: Node, ghost r: seq<Node>)
    requires n in r
    modifies n`next
    ensures Nexts(r) == Put(old(Nexts(r)), n, m) && Prevs(r) == old(Prevs(r))
  {
    n.next := m;
  }

  method SetPrev(n: Node, m: Node, ghost r: seq<Node>)
    requires n in r
    modifies n`prev
    ensures Prevs(r) == Put(old(Prevs(r)), n, m) && Nexts(r) == old(Nexts(r))
  {
    n.prev := m;
  }

  /** The pointer writes of LLIST_REMOVE; the node's own pointers stay. */
  method Unlink(e: Node, ghost s: seq<Node>, ghost k: nat)
    requires s != [] && Ring(s[0], s) && k < |s| && s[k] == e
    modifies {e.prev, e.next}
    ensures Linked(s[..k] + s[k + 1..], Nexts(s), Prevs(s))
    ensures e.next == s[Succ(k, |s|)] && (e.next == e && e.prev == e <==> |s| == 1)
  {
    hide Ring, Linked;
    ghost var next, prev := Nexts(s), Prevs(s);
    RingHead(s[0], s);
    RingLinks(s, s);
    NeighbourLinks(s, k, next, prev);
    Distinct(s, k, Succ(k, |s|));
    UnlinkLinks(s, k, next, prev);
    SetNext(e.prev, e.next, s);
    SetPrev(e.next, e.prev, s);
    assert Nexts(s)[e] == e.next && Prevs(s)[e] == e.prev;
    assert |s| > 1 ==> e.next == next[e] && e.prev == prev[e];
    assert |s| == 1 ==> e.next == e && e.prev == e;
    assert Nexts(s) == Put(next, prev[e], next[e]);
    assert Prevs(s) == Put(prev, next[e], prev[e]);
  }

  /** The pointer writes of LLIST_MERGE; the source exchanges the two `prev`s by XOR. */
  method Splice(a: Node, b: Node, ghost r: seq<Node>)
    requires a != b && a.prev != b.prev && {a, b, a.prev, b.prev} <= set n | n in r
    modifies a`prev, b`prev, a.prev`next, b.prev`next
    ensures Nexts(r) == Put(Put(old(Nexts(r)), old(a.prev), b), old(b.prev), a)
    ensures Prevs(r) == Put(Put(old(Prevs(r)), a, old(b.prev)), b, old(a.prev))
  {
    var p, q := a.prev, b.prev;
    SetNext(p, b, r);
    SetNext(q, a, r);
    SetPrev(a, q, r);
    SetPrev(b, p, r);
  }

  lemma RingHead(h: Node?, s: seq<Node>)
    requires Ring(h, s)
    ensures h == Head(s)
    ensures NoDup(s)
  {
  }

  lemma MergedRings(s: seq<Node>, t: seq<Node>)
    requires s != [] && t != [] && Linked(s + t, Nexts(s + t), Prevs(s + t))
    ensures Ring(s[0], s + t) && Ring(t[0], t + s)
  {
    hide Linked;
    var r := s + t;
    RingLinks(r, r);
    Rotated(r[0], r, |s|);
    assert r[|s|..] + r[..|s|] == t + s;
  }

  lemma RemovedRing(s: seq<Node>, k: nat)
    requires NoDup(s) && k < |s|
    requires Linked(s[..k] + s[k + 1..], Nexts(s), Prevs(s))
    ensures Ring(Head(SeqLists.Remove(s, s[k])), SeqLists.Remove(s, s[k]))
  {
    hide Ring, Linked, SeqLists.Remove;
    SeqLists.RemoveAt(s, k);
    var r := s[..k] + s[k + 1..];
    if |s| > 1 {
      RingLinks(r, s);
    } else {
      Empty();
      assert r == [];
    }
  }

  lemma RemovedHead(s: seq<Node>, k: nat)
    requires NoDup(s) && k < |s|
    ensures Head(SeqLists.Remove(s, s[k])) == if k > 0 then s[0] else if |s| > 1 then s[1] else null
  {
    hide SeqLists.Remove;
    SeqLists.RemoveAt(s, k);
  }

  lemma Single(e: Node)
    requires e.next == e && e.prev == e
    ensures Ring(e, [e])
  {
  }

  lemma Empty()
    ensures Ring(null, [])
  {
  }

  /**
    What notifying a thread that is still queued does: it is unlinked as if it were in
    `blocked`, then put in `ready`. The wait list it was on loses it, unless it was the
    first: then that list's head is left pointing to a node of the ready ring.
   */
  method WakeQueued(blocked: List, ready: List, wait: List, e: Node,
                    ghost b: seq<Node>, ghost r: seq<Node>, ghost w: seq<Node>)
    requires blocked != ready && blocked != wait && ready != wait
    requires Ring(blocked.head, b) && Ring(ready.head, r) && Ring(wait.head, w) && r != [] && e in w
    requires forall n :: n in b ==> n !in r && n !in w
    requires forall n :: n in r ==> n !in w
    modifies blocked, ready, w, r
    ensures Ring(blocked.head, b)
    ensures Ring(ready.head, r + [e])
    ensures Ring(wait.head, Unhooked(w, e, r))
  {
    hide Ring, SeqLists.Remove;
    RingHead(blocked.head, b);
    assert b != [] ==> b[0] in b;
    RingHead(wait.head, w);
    RemoveNoDup(w, e);
    RingHead(ready.head, r);
    RingMember(w, e);
    if w[0] != e { RemovedFirst(w, e); }
    blocked.Remove(e, w);
    ghost var w' := SeqLists.Remove(w, e);
    assert w[0] != e ==> Ring(wait.head, w');
    assert r[0] in r && r[|r| - 1] in r;
    assert e !in w' && forall n :: n in w' ==> n !in r;
    ready.Add(e, r);
    assert w[0] != e ==> Ring(wait.head, w');
    Rotated(ready.head, r + [e], |r|);
    assert (r + [e])[|r|..] + (r + [e])[..|r|] == [e] + r;
  }

  lemma RingMember(s: seq<Node>, e: Node)
    requires e in s && Ring(s[0], s)
    ensures e.next in s && e.prev in s
  {
    var k := IndexOf(s, e);
    RingLinks(s, s);
    NeighbourLinks(s, k, Nexts(s), Prevs(s));
  }

  lemma RemovedFirst(s: seq<Node>, e: Node)
    requires e in s && s[0] != e
    ensures Head(SeqLists.Remove(s, e)) == s[0]
    ensures forall n :: n in SeqLists.Remove(s, e) ==> n in s
  {
  }
}
