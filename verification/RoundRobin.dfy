/** The bound on how long a ready thread waits for the processor. */
module RoundRobin {
  import opened SeqLists
  import opened IpcState
  import opened IpcInvariant
  import opened IpcRuns
  import opened IpcMessages

  /** Does the step end in an election? */
  ghost predicate Elects(s: State, a: Action)
    requires CanStep(s, a)
  {
    a.Tick? ||
    var e := AtEntry(s, a);
    (a.dest == IPC_ANY || a.dest in s.members) &&
    ((a.num == SYSCALL_SEND && a.dest != IPC_ANY && !Reaches(e, a.dest, s.th[s.cur].proc.value))
     || (a.num == SYSCALL_RECEIVE && FindWaitingSender(e, s.th[s.cur].proc.value, Target(a.dest)) == None))
  }

  // ---- positions in a queue ----

  lemma {:induction false} IndexRemove<T>(s: seq<T>, x: T, t: T)
    requires t in s && x != t
    ensures t in Remove(s, x) && IndexOf(Remove(s, x), t) <= IndexOf(s, t)
  {
    if s[0] == x {
      assert t in s[1..];
    } else if s[0] != t {
      assert t in s[1..];
      IndexRemove(s[1..], x, t);
      var r := Remove(s[1..], x);
      assert Remove(s, x) == [s[0]] + r && ([s[0]] + r)[1..] == r;
    }
  }

  lemma {:induction false} IndexAppend<T>(s: seq<T>, y: T, t: T)
    requires t in s
    ensures IndexOf(s + [y], t) == IndexOf(s, t)
  {
    if s[0] != t {
      assert (s + [y])[1..] == s[1..] + [y];
      IndexAppend(s[1..], y, t);
    }
  }

  lemma IndexRotate<T>(s: seq<T>, t: T)
    requires t in s && s[0] != t
    ensures IndexOf(s[1..] + [s[0]], t) == IndexOf(s, t) - 1
  {
    assert t in s[1..];
    IndexAppend(s[1..], s[0], t);
  }

  /** The queue that a step leaves to the election, for a thread that stays in it. */
  ghost predicate Closer(q: seq<Tid>, q2: seq<Tid>, t: Tid) {
    t in q && t in q2 && IndexOf(q2, t) <= IndexOf(q, t)
  }

  /** One election of the queue `q`: `t` is elected or comes closer to its head. */
  lemma Election(s: State, m: State, t: Tid)
    requires Closer(s.ready, m.ready, t)
    ensures t in Elect(m).ready
    ensures Elect(m).cur == t || IndexOf(Elect(m).ready, t) < IndexOf(s.ready, t)
  {
    if m.ready[0] != t { IndexRotate(m.ready, t); }
  }

  lemma DeliverCloser(e: State, p: Pid, r: Tid, t: Tid)
    requires e.cur < |e.th| && r < |e.th| && t in e.ready && t != e.cur
    ensures Closer(e.ready, Deliver(e, e.cur, p, r).ready, t)
  {
    IndexAppend(e.ready, r, t);
    IndexRemove(e.ready + [r], e.cur, t);
  }

  lemma BlockCloser(e: State, t: Tid)
    requires t in e.ready && t != e.cur
    ensures t in Remove(e.ready, e.cur) && IndexOf(Remove(e.ready, e.cur), t) <= IndexOf(e.ready, t)
  {
    IndexRemove(e.ready, e.cur, t);
  }

  /** `t` is elected, or comes closer to the head of the ready queue. */
  ghost predicate Advances(q: seq<Tid>, s2: State, t: Tid) {
    t in q && t in s2.ready && (s2.cur == t || IndexOf(s2.ready, t) < IndexOf(q, t))
  }

  lemma SendAdvances(e: State, p: Pid, t: Tid)
    requires CanCall(e) && p in e.members && !Reaches(e, p, e.th[e.cur].proc.value) && t in e.ready
    requires t in Send(e, e.cur, Some(p)).0.ready
    ensures Advances(e.ready, Send(e, e.cur, Some(p)).0, t)
  {
    hide Reaches, FindReceiver;
    assert Placed(e, e.cur);
    match FindReceiver(Sending(e, e.cur, p), p, e.th[e.cur].proc)
    case Some(r) =>
      SendFinds(e, p, r);
      assert Placed(e, r);
      RemoveNoDup(e.ready + [r], e.cur);
      ElectSame(Deliver(e, e.cur, p, r), t);
      DeliverCloser(e, p, r, t);
      Election(e, Deliver(e, e.cur, p, r), t);
    case None =>
      RemoveNoDup(e.ready, e.cur);
      ElectSame(Enqueue(e, e.cur, p), t);
      BlockCloser(e, t);
      Election(e, Enqueue(e, e.cur, p), t);
  }

  lemma ElectSame(m: State, t: Tid)
    ensures t in Elect(m).ready <==> t in m.ready
  {
    if m.ready != [] { assert m.ready == [m.ready[0]] + m.ready[1..]; }
  }

  lemma AwaitAdvances(e: State, from: Option<Pid>, t: Tid)
    requires CanCall(e) && FindWaitingSender(e, e.th[e.cur].proc.value, from) == None && t in e.ready
    requires t in Receive(e, e.cur, from).ready
    ensures Advances(e.ready, Receive(e, e.cur, from), t)
  {
    var m := Await(e, e.cur, from);
    RemoveNoDup(e.ready, e.cur);
    ElectSame(m, t);
    BlockCloser(e, t);
    Election(e, m, t);
  }

  lemma CallAdvances(e: State, num: Word, dest: Word, t: Tid)
    requires CanCall(e) && (num == SYSCALL_NOTIFY ==> dest != IPC_ANY) && t in e.ready
    requires t in Dispatch(e, num, dest).0.ready
    requires dest == IPC_ANY || dest in e.members
    requires (num == SYSCALL_SEND && dest != IPC_ANY && !Reaches(e, dest, e.th[e.cur].proc.value))
      || (num == SYSCALL_RECEIVE && FindWaitingSender(e, e.th[e.cur].proc.value, Target(dest)) == None)
    ensures Advances(e.ready, Dispatch(e, num, dest).0, t)
  {
    hide Reaches, FindWaitingSender, Send, Receive;
    if num == SYSCALL_SEND {
      SendAdvances(e, dest, t);
    } else {
      AwaitAdvances(e, Target(dest), t);
    }
  }

  lemma CallKeeps(e: State, num: Word, dest: Word, t: Tid)
    requires CanCall(e) && (num == SYSCALL_NOTIFY ==> dest != IPC_ANY) && t in e.ready
    requires (dest == IPC_ANY || dest in e.members) ==>
      && (num == SYSCALL_SEND && dest != IPC_ANY ==> Reaches(e, dest, e.th[e.cur].proc.value))
      && (num == SYSCALL_RECEIVE ==> FindWaitingSender(e, e.th[e.cur].proc.value, Target(dest)).Some?)
    ensures var s1 := Dispatch(e, num, dest).0;
      t in s1.ready && IndexOf(s1.ready, t) == IndexOf(e.ready, t) && s1.cur == e.cur
  {
    var s1 := Dispatch(e, num, dest).0;
    assert s1.ready == e.ready || exists u :: s1.ready == e.ready + [u];
    if s1.ready != e.ready {
      var u :| s1.ready == e.ready + [u];
      IndexAppend(e.ready, u, t);
    }
  }

  /** One step: an election brings a thread that stays ready closer, and nothing else moves it back. */
  lemma StepAdvances(s: State, a: Action, t: Tid)
    requires CanStep(s, a) && t in s.ready && t in Step(s, a).ready
    ensures Elects(s, a) ==> Advances(s.ready, Step(s, a), t)
    ensures !Elects(s, a) ==> IndexOf(Step(s, a).ready, t) == IndexOf(s.ready, t) && Step(s, a).cur == s.cur
  {
    hide Reaches, FindWaitingSender, Dispatch;
    if a.Tick? {
      Election(s, s, t);
    } else {
      EntrySame(s, a);
      var e := AtEntry(s, a);
      HandleUnfolds(s, a, e);
      if Elects(s, a) {
        CallAdvances(e, a.num, a.dest, t);
      } else {
        CallKeeps(e, a.num, a.dest, t);
      }
    }
  }

  // ---- whole runs ----

  /** The elections among the actions from `i` up to `j`. */
  ghost function Elections(trace: seq<State>, acts: seq<Action>, i: nat, j: nat): nat
    requires IsRun(trace, acts) && i <= j < |trace| && forall k :: i <= k < j ==> CanStep(trace[k], acts[k])
    decreases j - i
  {
    if i == j then 0 else Elections(trace, acts, i + 1, j) + if Elects(trace[i], acts[i]) then 1 else 0
  }

  /**
    A thread that stays ready while there are more elections than its place in the ready
    queue is elected in one of them, whatever other threads do in between.
   */
  lemma {:induction false} Elected(trace: seq<State>, acts: seq<Action>, i: nat, j: nat, t: Tid) returns (k: nat)
    requires IsRun(trace, acts) && Safe(trace[0]) && i <= j < |trace|
    requires forall k :: i <= k <= j ==> t in trace[k].ready
    requires forall k :: i <= k < j ==> CanStep(trace[k], acts[k])
    requires Elections(trace, acts, i, j) > IndexOf(trace[i].ready, t)
    ensures i <= k < j && Elects(trace[k], acts[k]) && trace[k + 1].cur == t
    decreases j - i
  {
    StepAdvances(trace[i], acts[i], t);
    if Elects(trace[i], acts[i]) && trace[i + 1].cur == t {
      k := i;
    } else {
      k := Elected(trace, acts, i + 1, j, t);
    }
  }
}
