/** What every step of the rendezvous protocol keeps, and safety over whole runs. */
module IpcInvariant {
  import opened SeqLists
  import opened IpcState

  /** Where a thread is queued, by its fields. */
  ghost predicate Placed(s: State, t: Tid)
    requires WellFormed(s) && t < |s.th|
  {
    var th := s.th[t];
    && (t in s.ready <==> th.run == Ready)
    && (t in s.blocked <==> th.run == Blocked && !th.sending)
    && (forall q :: q in s.wait ==> (t in s.wait[q] <==> th.run == Blocked && th.sending && th.sendTo == Some(q)))
    && (th.sending ==> th.run == Blocked && !th.receiving && th.sendTo.Some?)
    && (th.receiving ==> th.run == Blocked)
    && (th.proc.None? ==> th.run == Ready)
  }

  ghost predicate AllPlaced(s: State)
    requires WellFormed(s)
  {
    forall t :: 0 <= t < |s.th| ==> Placed(s, t)
  }

  ghost predicate NoRepeats(s: State) {
    NoDup(s.ready) && NoDup(s.blocked) && forall q :: q in s.wait ==> NoDup(s.wait[q])
  }

  ghost predicate Idle(s: State, k: Tid) {
    k < |s.th| && s.th[k].proc.None?
  }

  ghost predicate Membership(s: State)
    requires WellFormed(s)
  {
    forall p, t :: p in s.members && 0 <= t < |s.th| ==> (t in s.members[p] <==> s.th[t].proc == Some(p))
  }

  /** Nobody waits to send to a process one of whose threads waits for that very message. */
  ghost predicate NoMissedRendezvous(s: State)
    requires WellFormed(s)
  {
    forall q, t, u :: q in s.wait && t in s.wait[q] && 0 <= u < |s.th| && s.th[u].proc == Some(q) ==>
      !Accepts(s.th[u], s.th[t].proc)
  }

  ghost predicate Core(s: State) {
    && WellFormed(s) && AllPlaced(s) && NoRepeats(s) && Membership(s) && NoMissedRendezvous(s)
    && (exists k :: Idle(s, k))
  }

  ghost predicate Inv(s: State) {
    Core(s) && s.cur in s.ready
  }

  ghost predicate CanCall(s: State) {
    Inv(s) && s.th[s.cur].proc.Some?
  }

  lemma ElectKeeps(s: State)
    requires Core(s)
    ensures Inv(Elect(s)) && s.ready != []
  {
    var k :| Idle(s, k);
    assert Placed(s, k);
    var e := Elect(s);
    assert e.cur in s.ready;
    forall t ensures t in e.ready <==> t in s.ready { assert s.ready == [s.ready[0]] + s.ready[1..]; }
    assert WellFormed(e);
    forall t | 0 <= t < |s.th| ensures Placed(e, t) { assert Placed(s, t); }
    assert Idle(e, k);
  }

  /** Threads keep their process, so the thread lists stay right and the idle thread stays idle. */
  lemma SameProcs(s: State, s2: State)
    requires Core(s) && WellFormed(s2) && s2.members == s.members && |s2.th| == |s.th|
    requires forall u :: 0 <= u < |s.th| ==> s2.th[u].proc == s.th[u].proc
    ensures Membership(s2) && exists k :: Idle(s2, k)
  {
    var k :| Idle(s, k);
    assert Idle(s2, k);
  }

  /** Shorter wait lists and fewer threads receiving cannot miss a rendezvous. */
  lemma LessToMiss(s: State, s2: State)
    requires Core(s) && WellFormed(s2) && |s2.th| == |s.th| && s2.members == s.members
    requires forall q, v :: q in s2.wait && v in s2.wait[q] ==> v in s.wait[q]
    requires forall u :: 0 <= u < |s.th| ==> s2.th[u].proc == s.th[u].proc
    requires forall u :: 0 <= u < |s.th| && s2.th[u].IsReceiving() ==> s2.th[u] == s.th[u]
    ensures NoMissedRendezvous(s2)
  {
    forall q, v, u | q in s2.wait && v in s2.wait[q] && 0 <= u < |s.th| && s2.th[u].proc == Some(q)
      ensures !Accepts(s2.th[u], s2.th[v].proc)
    {
      assert v in s.wait[q] && !Accepts(s.th[u], s.th[v].proc);
    }
  }

  /** Threads keep their process, and what they send to and where they queue stays in bounds. */
  lemma StillFormed(s: State, s2: State)
    requires WellFormed(s) && |s2.th| == |s.th| && s2.members == s.members && s2.wait.Keys == s.wait.Keys && s2.cur == s.cur
    requires IdsIn(s2.ready, |s.th|) && IdsIn(s2.blocked, |s.th|)
    requires forall q :: q in s2.wait ==> IdsIn(s2.wait[q], |s.th|)
    requires forall u :: 0 <= u < |s.th| ==> s2.th[u].proc == s.th[u].proc
    requires forall u :: 0 <= u < |s.th| ==>
      s2.th[u].sendTo == s.th[u].sendTo || (s2.th[u].sendTo.Some? && s2.th[u].sendTo.value in s.members)
    ensures WellFormed(s2)
  {
  }

  lemma PlacedAt(s: State, t: Tid)
    requires Core(s) && t < |s.th|
    ensures Placed(s, t)
  {
  }

  // ---- delivering ----

  lemma DeliverFormed(s: State, t: Tid, q: Pid, r: Tid)
    requires WellFormed(s) && t < |s.th| && r < |s.th| && q in s.members
    ensures WellFormed(Deliver(s, t, q, r))
  {
    StillFormed(s, Deliver(s, t, q, r));
  }

  lemma DeliverLists(s: State, t: Tid, q: Pid, r: Tid)
    requires WellFormed(s) && NoRepeats(s) && t < |s.th| && r < |s.th| && Placed(s, t) && Placed(s, r)
    requires s.th[t].run == Ready && s.th[r].IsReceiving()
    ensures NoRepeats(Deliver(s, t, q, r)) && r != t
    ensures forall u :: u in Deliver(s, t, q, r).ready <==> u != t && (u == r || u in s.ready)
    ensures forall u :: u in Deliver(s, t, q, r).blocked <==> u == t || (u != r && u in s.blocked)
  {
    hide WellFormed;
    assert r !in s.ready && t !in s.blocked;
    RemoveNoDup(s.ready + [r], t);
    RemoveNoDup(s.blocked, r);
  }

  lemma DeliverPlaces(s: State, t: Tid, q: Pid, r: Tid, u: Tid)
    requires WellFormed(s) && NoRepeats(s) && t < |s.th| && r < |s.th| && Placed(s, t) && Placed(s, r)
    requires s.th[t].run == Ready && s.th[t].proc.Some? && q in s.members && s.th[r].IsReceiving()
    requires u < |s.th| && Placed(s, u) && WellFormed(Deliver(s, t, q, r))
    ensures Placed(Deliver(s, t, q, r), u)
  {
    hide WellFormed, NoRepeats;
    DeliverLists(s, t, q, r);
  }

  lemma DeliverKeeps(s: State, t: Tid, q: Pid, r: Tid)
    requires Core(s) && t < |s.th| && s.th[t].run == Ready && s.th[t].proc.Some?
    requires q in s.members && r < |s.th| && s.th[r].IsReceiving()
    ensures Core(Deliver(s, t, q, r))
  {
    hide WellFormed, Placed, NoRepeats, Membership, NoMissedRendezvous;
    var s2 := Deliver(s, t, q, r);
    DeliverFormed(s, t, q, r);
    PlacedAt(s, t);
    PlacedAt(s, r);
    DeliverLists(s, t, q, r);
    forall u | 0 <= u < |s.th| ensures Placed(s2, u) { DeliverPlaces(s, t, q, r, u); }
    LessToMiss(s, s2);
    SameProcs(s, s2);
  }

  // ---- queueing ----

  lemma EnqueueFormed(s: State, t: Tid, q: Pid)
    requires WellFormed(s) && t < |s.th| && q in s.members
    ensures WellFormed(Enqueue(s, t, q))
  {
    StillFormed(s, Enqueue(s, t, q));
  }

  lemma EnqueueLists(s: State, t: Tid, q: Pid)
    requires WellFormed(s) && NoRepeats(s) && t < |s.th| && Placed(s, t) && s.th[t].run == Ready && q in s.wait
    ensures NoRepeats(Enqueue(s, t, q)) && t !in Enqueue(s, t, q).ready
  {
    hide WellFormed;
    assert t !in s.wait[q];
    RemoveNoDup(s.ready, t);
  }

  lemma EnqueuePlaces(s: State, t: Tid, q: Pid, u: Tid)
    requires WellFormed(s) && NoRepeats(s) && t < |s.th| && Placed(s, t) && s.th[t].run == Ready && s.th[t].proc.Some?
    requires q in s.members && u < |s.th| && Placed(s, u) && WellFormed(Enqueue(s, t, q))
    ensures Placed(Enqueue(s, t, q), u)
  {
    EnqueueLists(s, t, q);
  }

  lemma EnqueueKeeps(s: State, t: Tid, q: Pid)
    requires Core(s) && t < |s.th| && s.th[t].run == Ready && s.th[t].proc.Some? && q in s.members
    requires forall u :: u in s.members[q] && u != t ==> !Accepts(s.th[u], s.th[t].proc)
    ensures Core(Enqueue(s, t, q))
  {
    hide Placed, NoRepeats, Membership;
    var s2 := Enqueue(s, t, q);
    EnqueueFormed(s, t, q);
    PlacedAt(s, t);
    EnqueueLists(s, t, q);
    forall u | 0 <= u < |s.th| ensures Placed(s2, u) { EnqueuePlaces(s, t, q, u); }
    SameProcs(s, s2);
    forall p, v, u | p in s2.wait && v in s2.wait[p] && 0 <= u < |s.th| && s2.th[u].proc == Some(p)
      ensures !Accepts(s2.th[u], s2.th[v].proc)
    {
      EnqueueMisses(s, t, q, p, v, u);
    }
  }

  lemma EnqueueMisses(s: State, t: Tid, q: Pid, p: Pid, v: Tid, u: Tid)
    requires Core(s) && t < |s.th| && s.th[t].run == Ready && s.th[t].proc.Some? && q in s.members
    requires forall u :: u in s.members[q] && u != t ==> !Accepts(s.th[u], s.th[t].proc)
    requires p in s.wait && v in Enqueue(s, t, q).wait[p] && u < |s.th| && s.th[u].proc == Some(p)
    ensures v < |s.th| && !Accepts(Enqueue(s, t, q).th[u], Enqueue(s, t, q).th[v].proc)
  {
    if v in s.wait[p] {
      assert !Accepts(s.th[u], s.th[v].proc);
    } else {
      assert v == t && p == q && u in s.members[q];
    }
  }

  // ---- taking ----

  lemma TakeFormed(s: State, t: Tid, from: Option<Pid>, me: Pid, a: Tid)
    requires WellFormed(s) && t < |s.th| && a < |s.th| && me in s.wait
    ensures WellFormed(Take(s, t, from, me, a))
  {
    StillFormed(s, Take(s, t, from, me, a));
  }

  lemma TakeLists(s: State, t: Tid, from: Option<Pid>, me: Pid, a: Tid)
    requires WellFormed(s) && NoRepeats(s) && t < |s.th| && me in s.wait && a in s.wait[me] && a < |s.th| && Placed(s, a)
    ensures NoRepeats(Take(s, t, from, me, a)) && a !in Take(s, t, from, me, a).wait[me] && a !in s.ready
    ensures s.th[a].run == Blocked && s.th[a].sending && !s.th[a].receiving && s.th[a].sendTo == Some(me)
  {
    hide WellFormed;
    RemoveNoDup(s.wait[me], a);
  }

  lemma TakeShape(s: State, t: Tid, from: Option<Pid>, a: Tid)
    requires Core(s) && t < |s.th| && s.th[t].run == Ready && s.th[t].proc.Some?
    requires a in s.wait[s.th[t].proc.value]
    ensures t != a && s.th[t].proc.value in s.wait && a < |s.th|
    ensures WellFormed(Take(s, t, from, s.th[t].proc.value, a)) && NoRepeats(Take(s, t, from, s.th[t].proc.value, a))
    ensures s.th[a].run == Blocked && s.th[a].sending && !s.th[a].receiving && s.th[a].sendTo == s.th[t].proc
  {
    hide Placed, NoRepeats, Membership, NoMissedRendezvous;
    PlacedAt(s, a);
    TakeFormed(s, t, from, s.th[t].proc.value, a);
    TakeLists(s, t, from, s.th[t].proc.value, a);
  }

  lemma TakePlaces(s: State, t: Tid, from: Option<Pid>, me: Pid, a: Tid, u: Tid)
    requires WellFormed(s) && NoRepeats(s) && t < |s.th| && Placed(s, t) && s.th[t].run == Ready
    requires me in s.wait && a in s.wait[me] && a < |s.th| && Placed(s, a)
    requires u < |s.th| && Placed(s, u) && WellFormed(Take(s, t, from, me, a))
    ensures Placed(Take(s, t, from, me, a), u)
  {
    hide WellFormed, NoRepeats;
    TakeLists(s, t, from, me, a);
  }

  lemma TakeKeeps(s: State, t: Tid, from: Option<Pid>, a: Tid)
    requires Core(s) && t < |s.th| && s.th[t].run == Ready && s.th[t].proc.Some?
    requires a in s.wait[s.th[t].proc.value]
    ensures Core(Take(s, t, from, s.th[t].proc.value, a))
  {
    hide WellFormed, Placed, NoRepeats, Membership, NoMissedRendezvous;
    var me := s.th[t].proc.value;
    TakeShape(s, t, from, a);
    var s2 := Take(s, t, from, me, a);
    PlacedAt(s, t);
    PlacedAt(s, a);
    forall u | 0 <= u < |s.th| ensures Placed(s2, u) { TakePlaces(s, t, from, me, a, u); }
    SameProcs(s, s2);
    LessToMiss(s, s2);
  }

  // ---- blocking and waking ----

  lemma AwaitFormed(s: State, t: Tid, from: Option<Pid>)
    requires WellFormed(s) && t < |s.th|
    ensures WellFormed(Await(s, t, from))
  {
    StillFormed(s, Await(s, t, from));
  }

  lemma AwaitLists(s: State, t: Tid, from: Option<Pid>)
    requires WellFormed(s) && NoRepeats(s) && t < |s.th| && Placed(s, t) && s.th[t].run == Ready
    ensures NoRepeats(Await(s, t, from)) && t !in Await(s, t, from).ready
  {
    hide WellFormed;
    RemoveNoDup(s.ready, t);
  }

  lemma AwaitPlaces(s: State, t: Tid, from: Option<Pid>, u: Tid)
    requires WellFormed(s) && NoRepeats(s) && t < |s.th| && Placed(s, t) && s.th[t].run == Ready && s.th[t].proc.Some?
    requires u < |s.th| && Placed(s, u) && WellFormed(Await(s, t, from))
    ensures Placed(Await(s, t, from), u)
  {
    hide WellFormed, NoRepeats;
    AwaitLists(s, t, from);
  }

  lemma AwaitKeeps(s: State, t: Tid, from: Option<Pid>)
    requires Core(s) && t < |s.th| && s.th[t].run == Ready && s.th[t].proc.Some?
    requires FindWaitingSender(s, s.th[t].proc.value, from).None?
    ensures Core(Await(s, t, from))
  {
    hide Placed, NoRepeats, Membership;
    var s2 := Await(s, t, from);
    AwaitFormed(s, t, from);
    PlacedAt(s, t);
    AwaitLists(s, t, from);
    forall u | 0 <= u < |s.th| ensures Placed(s2, u) { AwaitPlaces(s, t, from, u); }
    SameProcs(s, s2);
    forall q, v, u | q in s2.wait && v in s2.wait[q] && 0 <= u < |s.th| && s2.th[u].proc == Some(q)
      ensures !Accepts(s2.th[u], s2.th[v].proc)
    {
      assert v in s.wait[q] && !Accepts(s.th[u], s.th[v].proc);
    }
  }

  lemma WakeFormed(s: State, u: Tid)
    requires WellFormed(s) && u < |s.th|
    ensures WellFormed(Wake(s, u))
  {
    StillFormed(s, Wake(s, u));
  }

  lemma WakeLists(s: State, u: Tid)
    requires WellFormed(s) && NoRepeats(s) && u in s.blocked && u < |s.th| && Placed(s, u)
    ensures NoRepeats(Wake(s, u)) && u !in Wake(s, u).blocked
  {
    hide WellFormed;
    RemoveNoDup(s.blocked, u);
  }

  lemma WakePlaces(s: State, u: Tid, v: Tid)
    requires WellFormed(s) && NoRepeats(s) && u in s.blocked && u < |s.th| && Placed(s, u) && !s.th[u].receiving
    requires v < |s.th| && Placed(s, v) && WellFormed(Wake(s, u))
    ensures Placed(Wake(s, u), v)
  {
    hide WellFormed, NoRepeats;
    WakeLists(s, u);
  }

  lemma WakeKeeps(s: State, u: Tid)
    requires Core(s) && u in s.blocked && !s.th[u].receiving
    ensures Core(Wake(s, u))
  {
    hide Placed, NoRepeats, Membership, NoMissedRendezvous;
    var s2 := Wake(s, u);
    PlacedAt(s, u);
    WakeFormed(s, u);
    WakeLists(s, u);
    forall v | 0 <= v < |s.th| ensures Placed(s2, v) { WakePlaces(s, u, v); }
    SameProcs(s, s2);
    LessToMiss(s, s2);
  }
}
