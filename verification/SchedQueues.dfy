/** The queues of kern/sched.c on the rings themselves, as the kernel objects use them. */
module SchedQueues {
  import opened SeqLists
  import opened Llist

  /** The nodes LLIST_ADD writes besides the new one. */
  ghost function Ends(s: seq<Node>): set<Node> {
    if s == [] then {} else {s[0], s[|s| - 1]}
  }

  class Sched {
    const ready: List
    const blocked: List
    /** The threads of the two queues, in order. */
    ghost var readyNodes: seq<Node>
    ghost var blockedNodes: seq<Node>

    ghost predicate Valid()
      reads this, ready, blocked, readyNodes, blockedNodes
    {
      && ready != blocked && Ring(ready.head, readyNodes) && Ring(blocked.head, blockedNodes)
      && forall n :: n in readyNodes ==> n !in blockedNodes
    }

    /** sched_setup. */
    constructor ()
      ensures Valid() && readyNodes == [] && blockedNodes == [] && fresh(ready) && fresh(blocked)
    {
      ready := new List();
      blocked := new List();
      readyNodes, blockedNodes := [], [];
    }

    /** sched_enqueue. */
    method MakeReady(t: Node)
      requires Valid() && t !in readyNodes && t !in blockedNodes
      modifies this`readyNodes, ready, t, Ends(readyNodes)
      ensures Valid() && readyNodes == old(readyNodes) + [t]
    {
      hide Ring;
      ghost var s := readyNodes;
      RingHead(blocked.head, blockedNodes);
      assert s != [] ==> s[0] in s && s[|s| - 1] in s;
      ready.Add(t, s);
      RingKept(blockedNodes);
      readyNodes := readyNodes + [t];
    }

    method Block(t: Node)
      requires Valid() && t !in readyNodes && t !in blockedNodes
      modifies this`blockedNodes, blocked, t, Ends(blockedNodes)
      ensures Valid() && blockedNodes == old(blockedNodes) + [t]
    {
      hide Ring;
      ghost var s := blockedNodes;
      RingHead(ready.head, readyNodes);
      assert s != [] ==> s[0] in s && s[|s| - 1] in s;
      blocked.Add(t, s);
      RingKept(readyNodes);
      blockedNodes := blockedNodes + [t];
    }

    /** sched_dequeue. */
    method Unready(t: Node)
      requires Valid() && t in readyNodes
      modifies this`readyNodes, ready, readyNodes
      ensures Valid() && readyNodes == Remove(old(readyNodes), t) && t !in readyNodes
    {
      hide Remove, Ring;
      Off(ready.head, readyNodes, t);
      RingHead(blocked.head, blockedNodes);
      ready.Remove(t, readyNodes);
      RingKept(blockedNodes);
      readyNodes := Remove(readyNodes, t);
    }

    method Unblock(t: Node)
      requires Valid() && t in blockedNodes
      modifies this`blockedNodes, blocked, blockedNodes
      ensures Valid() && blockedNodes == Remove(old(blockedNodes), t) && t !in blockedNodes
    {
      hide Remove, Ring;
      Off(blocked.head, blockedNodes, t);
      RingHead(ready.head, readyNodes);
      blocked.Remove(t, blockedNodes);
      RingKept(readyNodes);
      blockedNodes := Remove(blockedNodes, t);
    }

    /** The loops of sched_elect that walk a queue: they come back to the head. */
    method Walk(l: List, ghost s: seq<Node>)
      requires Ring(l.head, s)
    {
      if l.head != null {
        var t: Node := l.head.next;
        ghost var i := 1;
        while t != l.head
          invariant 1 <= i <= |s| && t == if i == |s| then s[0] else s[i]
          decreases |s| - i
        {
          t := t.next;
          i := i + 1;
        }
      }
    }

    /** sched_elect. */
    method Elect() returns (t: Node)
      requires Valid() && readyNodes != []
      modifies this`readyNodes, ready, readyNodes
      ensures Valid() && t == old(readyNodes)[0] && readyNodes == old(readyNodes)[1..] + [t]
    {
      Walk(ready, readyNodes);
      Walk(blocked, blockedNodes);
      t := ready.head;
      Unready(t);
      MakeReady(t);
    }

    /** The queue operations of a send to `r`, which waits for it, by the running thread `t`. */
    method HandOver(t: Node, r: Node)
      requires Valid() && t in readyNodes && r in blockedNodes
      modifies this`readyNodes, this`blockedNodes, ready, blocked, readyNodes, blockedNodes, t
      ensures Valid()
      ensures readyNodes == Remove(old(readyNodes) + [r], t) && blockedNodes == Remove(old(blockedNodes), r) + [t]
    {
      hide Remove, Ring;
      Unblock(r);
      MakeReady(r);
      Unready(t);
      assert forall n :: n in Ends(blockedNodes) ==> n in blockedNodes;
      Block(t);
    }

    /** A wait list `w` that holds the threads `ws`, which are in neither queue. */
    ghost predicate Outside(w: List, ws: seq<Node>)
      reads this, w, ws
    {
      w != ready && w != blocked && Ring(w.head, ws) && forall n :: n in ws ==> n !in readyNodes && n !in blockedNodes
    }

    /** Those of a send that waits. */
    method JoinWaitList(t: Node, w: List, ghost ws: seq<Node>)
      requires Valid() && Outside(w, ws) && t in readyNodes
      modifies this`readyNodes, ready, readyNodes, w, Ends(ws)
      ensures Valid() && Outside(w, ws + [t]) && readyNodes == Remove(old(readyNodes), t)
    {
      hide Remove, Ring;
      RingHead(w.head, ws);
      assert forall n :: n in Ends(ws) ==> n in ws;
      Unready(t);
      RingKept(ws);
      w.Add(t, ws);
    }

    /** Those of a receive that serves `a`. */
    method LeaveWaitList(a: Node, w: List, ghost ws: seq<Node>)
      requires Valid() && Outside(w, ws) && a in ws
      modifies this`readyNodes, ready, Ends(readyNodes), w, ws
      ensures Valid() && Outside(w, Remove(ws, a)) && readyNodes == old(readyNodes) + [a]
    {
      hide Remove, Ring;
      Off(w.head, ws, a);
      RingHead(ready.head, readyNodes);
      RingHead(blocked.head, blockedNodes);
      assert forall n :: n in Ends(readyNodes) ==> n in readyNodes;
      w.Remove(a, ws);
      RingKept(readyNodes);
      RingKept(blockedNodes);
      label Left:
      MakeReady(a);
      RingKept@Left(Remove(ws, a));
    }

    /** Those of a receive that blocks. */
    method Suspend(t: Node)
      requires Valid() && t in readyNodes
      modifies this`readyNodes, this`blockedNodes, ready, blocked, readyNodes, Ends(blockedNodes)
      ensures Valid() && readyNodes == Remove(old(readyNodes), t) && blockedNodes == old(blockedNodes) + [t]
    {
      hide Remove, Ring;
      Unready(t);
      Block(t);
    }

    /** Those of a notify that finds its thread blocked. */
    method Resume(u: Node)
      requires Valid() && u in blockedNodes
      modifies this`readyNodes, this`blockedNodes, ready, blocked, blockedNodes, Ends(readyNodes)
      ensures Valid() && blockedNodes == Remove(old(blockedNodes), u) && readyNodes == old(readyNodes) + [u]
    {
      hide Remove, Ring;
      Unblock(u);
      MakeReady(u);
    }

    /** And of one that finds it still in the caller's wait list: the head of that list may end up in the ready queue. */
    method ResumeQueued(u: Node, w: List, ghost ws: seq<Node>)
      requires Valid() && Outside(w, ws) && u in ws && readyNodes != []
      modifies this`readyNodes, ready, blocked, readyNodes, w, ws
      ensures Valid() && readyNodes == old(readyNodes) + [u] && blockedNodes == old(blockedNodes)
      ensures Ring(w.head, Unhooked(ws, u, old(readyNodes)))
    {
      WakeQueued(blocked, ready, w, u, blockedNodes, readyNodes, ws);
      readyNodes := readyNodes + [u];
    }
  }

  /** A ring of nodes that were not written reads as before. */
  twostate lemma RingKept(s: seq<Node>)
    requires forall n :: n in s ==> n.next == old(n.next) && n.prev == old(n.prev)
    ensures old(Ring(Head(s), s)) ==> Ring(Head(s), s)
  {
  }

  lemma Off(h: Node?, s: seq<Node>, t: Node)
    requires Ring(h, s) && t in s
    ensures s != [] && h == s[0] && t !in Remove(s, t) && (s[0] != t ==> Head(Remove(s, t)) == s[0])
    ensures forall n :: n in s ==> n.next in s && n.prev in s
    ensures forall n :: n in Remove(s, t) ==> n in s
  {
    RemoveNoDup(s, t);
    forall n | n in s ensures n.next in s && n.prev in s {
      var k := IndexOf(s, n);
      assert s[Succ(Pred(k, |s|), |s|)] == n;
    }
  }
}
