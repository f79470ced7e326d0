/** The graph of queued senders: chains of sends, and when a send can close a cycle. */
module IpcGraph {
  import opened SeqLists
  import opened IpcState

  lemma EdgeReaches(s: State, p: Pid, q: Pid)
    requires Edge(s, p, q)
    ensures Reaches(s, p, q)
  {
    assert IsPath(s, [p, q]);
  }

  lemma ReachesTrans(s: State, p: Pid, q: Pid, r: Pid)
    requires Reaches(s, p, q) && Reaches(s, q, r)
    ensures Reaches(s, p, r)
  {
    var a :| IsPath(s, a) && a[0] == p && a[|a| - 1] == q;
    var b :| IsPath(s, b) && b[0] == q && b[|b| - 1] == r;
    var c := a + b[1..];
    forall i | 0 <= i < |c| - 1 ensures Edge(s, c[i], c[i + 1]) {
      if i < |a| - 1 {
        assert Edge(s, a[i], a[i + 1]);
      } else {
        assert Edge(s, b[i - (|a| - 1)], b[i - (|a| - 1) + 1]);
      }
    }
    assert IsPath(s, c);
  }

  /** The first edge of a chain; the rest is empty or a chain. */
  lemma ReachesFirst(s: State, p: Pid, q: Pid) returns (n: Pid)
    requires Reaches(s, p, q)
    ensures Edge(s, p, n) && (n == q || Reaches(s, n, q))
  {
    var a :| IsPath(s, a) && a[0] == p && a[|a| - 1] == q;
    n := a[1];
    assert Edge(s, a[0], a[1]);
    if |a| > 2 {
      var b := a[1..];
      assert forall i :: 0 <= i < |b| - 1 ==> Edge(s, b[i], b[i + 1]) by {
        forall i | 0 <= i < |b| - 1 ensures Edge(s, b[i], b[i + 1]) { assert Edge(s, a[i + 1], a[i + 2]); }
      }
      assert IsPath(s, b);
    }
  }

  ghost predicate FewerEdges(s: State, s2: State) {
    forall p, q :: Edge(s2, p, q) ==> Edge(s, p, q)
  }

  lemma FewerEdgesKeep(s: State, s2: State)
    requires Acyclic(s) && FewerEdges(s, s2)
    ensures Acyclic(s2)
  {
    forall p ensures Reaches(s2, p, p) ==> Reaches(s, p, p) {
      forall a | IsPath(s2, a) && a[0] == p && a[|a| - 1] == p ensures Reaches(s, p, p) {
        assert IsPath(s, a);
      }
    }
  }

  /** `s2` has the edges of `s` and one from `p0` to `q0`. */
  ghost predicate OneMoreEdge(s: State, s2: State, p0: Pid, q0: Pid) {
    forall p, q :: Edge(s2, p, q) <==> Edge(s, p, q) || (p == p0 && q == q0)
  }

  ghost predicate ReachesOrIs(s: State, p: Pid, q: Pid) {
    p == q || Reaches(s, p, q)
  }

  lemma {:induction false} PathWithNewEdge(s: State, s2: State, p0: Pid, q0: Pid, a: seq<Pid>)
    requires OneMoreEdge(s, s2, p0, q0) && IsPath(s2, a)
    ensures Reaches(s, a[0], a[|a| - 1]) || (ReachesOrIs(s, a[0], p0) && ReachesOrIs(s, q0, a[|a| - 1]))
    decreases |a|
  {
    assert Edge(s2, a[0], a[1]);
    if Edge(s, a[0], a[1]) { EdgeReaches(s, a[0], a[1]); }
    if |a| > 2 {
      var b := a[1..];
      forall i | 0 <= i < |b| - 1 ensures Edge(s2, b[i], b[i + 1]) { assert Edge(s2, a[i + 1], a[i + 2]); }
      PathWithNewEdge(s, s2, p0, q0, b);
      if Edge(s, a[0], a[1]) {
        if Reaches(s, b[0], b[|b| - 1]) {
          ReachesTrans(s, a[0], b[0], b[|b| - 1]);
        } else if b[0] != p0 {
          ReachesTrans(s, a[0], b[0], p0);
        }
      }
    }
  }

  /**
    A queued send keeps the graph of senders acyclic exactly when no chain leads back
    from the target and the sender is not of the target process itself.
   */
  lemma QueuedSendAcyclic(s: State, s2: State, p0: Pid, q0: Pid)
    requires Acyclic(s) && OneMoreEdge(s, s2, p0, q0)
    ensures Acyclic(s2) <==> p0 != q0 && !Reaches(s, q0, p0)
  {
    assert Edge(s2, p0, q0);
    EdgeReaches(s2, p0, q0);
    if Reaches(s, q0, p0) {
      var a :| IsPath(s, a) && a[0] == q0 && a[|a| - 1] == p0;
      assert IsPath(s2, a);
      ReachesTrans(s2, p0, q0, p0);
    }
    if p0 != q0 && !Reaches(s, q0, p0) {
      forall p ensures !Reaches(s2, p, p) {
        if Reaches(s2, p, p) { NewCycle(s, s2, p0, q0, p); }
      }
    }
  }

  /** A cycle with the new edge was there without it, or runs through it. */
  lemma NewCycle(s: State, s2: State, p0: Pid, q0: Pid, p: Pid)
    requires OneMoreEdge(s, s2, p0, q0) && Reaches(s2, p, p)
    ensures Reaches(s, p, p) || ReachesOrIs(s, q0, p0)
  {
    var a :| IsPath(s2, a) && a[0] == p && a[|a| - 1] == p;
    PathWithNewEdge(s, s2, p0, q0, a);
    if !Reaches(s, p, p) && q0 != p && p != p0 { ReachesTrans(s, q0, p, p0); }
  }

  // ---- the measure of the deadlock search ----

  ghost function Beyond(s: State, p: Pid): set<Pid> {
    set q | q in s.members && Reaches(s, p, q)
  }

  /** In an acyclic graph every edge leads to a process that reaches strictly fewer ones. */
  lemma EdgeShrinks(s: State, p: Pid, q: Pid)
    requires WellFormed(s) && Acyclic(s) && Edge(s, p, q)
    ensures q in s.members && Beyond(s, q) < Beyond(s, p) && |Beyond(s, q)| < |Beyond(s, p)|
  {
    EdgeReaches(s, p, q);
    forall r | r in Beyond(s, q) ensures r in Beyond(s, p) { ReachesTrans(s, p, q, r); }
    assert q in Beyond(s, p) && q !in Beyond(s, q);
    SmallerSet(Beyond(s, q), Beyond(s, p));
  }

  /** The recursion of the search: a chain starts with a sending thread of the process. */
  lemma ReachesUnfold(s: State, p: Pid, q: Pid)
    ensures Reaches(s, p, q) <==> exists n :: Edge(s, p, n) && (n == q || Reaches(s, n, q))
  {
    if Reaches(s, p, q) {
      var n := ReachesFirst(s, p, q);
    }
    forall n | Edge(s, p, n) && (n == q || Reaches(s, n, q)) ensures Reaches(s, p, q) {
      EdgeReaches(s, p, n);
      if n != q { ReachesTrans(s, p, n, q); }
    }
  }
}
