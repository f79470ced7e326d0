/**
  The system calls as the kernel runs them: threads and processes are objects updated
  in place, queues and lists are fields. Every method is tied to its function on states.
 */
module IpcKernel {
  import opened SeqLists
  import S = IpcState
  import I = IpcInvariant
  import G = IpcGraph
  import R = IpcRuns

  class Thread {
    const id: S.Tid
    var proc: Process?
    var run: S.RunState
    var sending: bool
    var receiving: bool
    var sendTo: Process?
    var recvFrom: Process?
    var ctx: S.Regs

    constructor (id: S.Tid, ctx: S.Regs)
      ensures this.id == id && proc == null && run == S.Ready && !sending && !receiving
      ensures sendTo == null && recvFrom == null && this.ctx == ctx
    {
      this.id, proc, run, sending, receiving := id, null, S.Ready, false, false;
      sendTo, recvFrom, this.ctx := null, null, ctx;
    }

    function Value(): S.Thread
      reads this
    {
      S.Thread(PidOf(proc), run, sending, receiving, PidOf(sendTo), PidOf(recvFrom), ctx)
    }
  }

  class Process {
    const pid: S.Pid
    var threadList: seq<Thread>
    var waitList: seq<Thread>

    constructor (pid: S.Pid)
      ensures this.pid == pid && threadList == [] && waitList == []
    {
      this.pid, threadList, waitList := pid, [], [];
    }
  }

  function PidOf(p: Process?): Option<S.Pid> {
    if p == null then None else Some(p.pid)
  }

  function Ids(s: seq<Thread>): (r: seq<S.Tid>)
    ensures |r| == |s| && forall i :: 0 <= i < |s| ==> r[i] == s[i].id
  {
    if s == [] then [] else [s[0].id] + Ids(s[1..])
  }

  lemma {:induction false} IdsAppend(s: seq<Thread>, t: Thread)
    ensures Ids(s + [t]) == Ids(s) + [t.id]
  {
    if s != [] {
      assert (s + [t])[1..] == s[1..] + [t];
      IdsAppend(s[1..], t);
    }
  }

  /** Those a rendezvous is between: the caller, the other thread, the process of the wait list, the sender asked for. */
  datatype Parties = Parties(t: Thread, r: Thread, q: Process, from: Process?)

  class Kernel {
    const threads: seq<Thread>
    const procs: map<S.Pid, Process>
    var ready: seq<Thread>
    var blocked: seq<Thread>
    var cur: Thread

    constructor (threads: seq<Thread>, procs: map<S.Pid, Process>, cur: Thread)
      requires forall i {:trigger threads[i]} :: 0 <= i < |threads| ==> threads[i].id == i
      requires forall p :: p in procs ==> procs[p].pid == p
      requires cur in threads
      ensures this.threads == threads && this.procs == procs && this.cur == cur && ready == threads && blocked == []
    {
      this.threads, this.procs, this.cur, ready, blocked := threads, procs, cur, threads, [];
    }

    ghost predicate Known(t: Thread) {
      t.id < |threads| && threads[t.id] == t
    }

    ghost predicate KnownProc(p: Process?) {
      p == null || (p.pid in procs && procs[p.pid] == p)
    }

    ghost predicate AllKnown(s: seq<Thread>) {
      forall i :: 0 <= i < |s| ==> Known(s[i])
    }

    ghost predicate ThreadsValid()
      reads threads
    {
      forall i {:trigger threads[i]} :: 0 <= i < |threads| ==>
        threads[i].id == i && KnownProc(threads[i].proc) && KnownProc(threads[i].sendTo) && KnownProc(threads[i].recvFrom)
    }

    ghost predicate ProcsValid()
      reads procs.Values
    {
      forall p :: p in procs ==> procs[p].pid == p && AllKnown(procs[p].threadList) && AllKnown(procs[p].waitList)
    }

    ghost predicate Valid()
      reads this, threads, procs.Values
    {
      ThreadsValid() && ProcsValid() && AllKnown(ready) && AllKnown(blocked) && Known(cur)
    }

    ghost function Values(): (r: seq<S.Thread>)
      reads threads
      ensures |r| == |threads| && forall i {:trigger r[i]} {:trigger threads[i]} :: 0 <= i < |r| ==> r[i] == threads[i].Value()
    {
      seq(|threads|, i requires 0 <= i < |threads| reads threads => threads[i].Value())
    }

    ghost function WaitLists(): (r: map<S.Pid, seq<S.Tid>>)
      reads procs.Values
      ensures r.Keys == procs.Keys && forall p :: p in procs ==> r[p] == Ids(procs[p].waitList)
    {
      map p | p in procs :: Ids(procs[p].waitList)
    }

    ghost function ThreadLists(): (r: map<S.Pid, seq<S.Tid>>)
      reads procs.Values
      ensures r.Keys == procs.Keys && forall p :: p in procs ==> r[p] == Ids(procs[p].threadList)
    {
      map p | p in procs :: Ids(procs[p].threadList)
    }

    ghost function Abs(): S.State
      reads this, threads, procs.Values
    {
      S.State(Values(), Ids(ready), Ids(blocked), WaitLists(), ThreadLists(), cur.id)
    }

    lemma SameProc(p: Process?, q: Process?)
      requires KnownProc(p) && KnownProc(q)
      ensures p == q <==> PidOf(p) == PidOf(q)
    {
    }

    lemma MemberKnown(list: seq<Thread>, i: nat)
      requires Valid() && AllKnown(list) && i < |list|
      ensures var t := list[i]; Known(t) && t.id < |Abs().th| && Abs().th[t.id] == t.Value()
      ensures var t := list[i]; KnownProc(t.proc) && KnownProc(t.sendTo) && KnownProc(t.recvFrom)
    {
    }

    lemma ListsKnown(q: Process)
      requires Valid() && KnownProc(q)
      ensures AllKnown(q.threadList) && AllKnown(q.waitList)
      ensures q.pid in Abs().members && Abs().members[q.pid] == Ids(q.threadList)
      ensures q.pid in Abs().wait && Abs().wait[q.pid] == Ids(q.waitList)
    {
    }

    // ---- searches ----

    method FindReceiver(q: Process, from: Process) returns (r: Thread?)
      requires Valid() && KnownProc(q) && KnownProc(from) && S.WellFormed(Abs())
      ensures r == null <==> S.FindReceiver(Abs(), q.pid, Some(from.pid)) == None
      ensures r != null ==> Known(r) && S.FindReceiver(Abs(), q.pid, Some(from.pid)) == Some(r.id)
    {
      hide Valid, AllKnown, Known, KnownProc, S.WellFormed, Abs, Values, Ids, S.FindReceiver, S.FindWaitingSender, S.FindBlockedSender;
      ghost var st := Abs();
      ListsKnown(q);
      var i := 0;
      while i < |q.threadList|
        invariant 0 <= i <= |q.threadList|
        invariant forall k :: 0 <= k < i ==> Refuses(st, st.members[q.pid][k], Some(from.pid))
      {
        var t := q.threadList[i];
        MemberKnown(q.threadList, i);
        SameProc(t.recvFrom, from);
        if t.receiving && !t.sending && (t.recvFrom == from || t.recvFrom == null) {
          ReceiverAt(st, q.pid, Some(from.pid), i);
          return t;
        }
        i := i + 1;
      }
      NoReceiver(st, q.pid, Some(from.pid));
      return null;
    }

    method FindWaitingSender(q: Process, from: Process?) returns (r: Thread?)
      requires Valid() && KnownProc(q) && KnownProc(from) && S.WellFormed(Abs())
      ensures r == null <==> S.FindWaitingSender(Abs(), q.pid, PidOf(from)) == None
      ensures r != null ==> Known(r) && S.FindWaitingSender(Abs(), q.pid, PidOf(from)) == Some(r.id)
    {
      hide Valid, AllKnown, Known, KnownProc, S.WellFormed, Abs, Values, Ids, S.FindReceiver, S.FindWaitingSender, S.FindBlockedSender;
      ghost var st := Abs();
      ListsKnown(q);
      if |q.waitList| == 0 || from == null {
        SenderHead(st, q.pid, PidOf(from));
        if |q.waitList| == 0 { return null; }
        MemberKnown(q.waitList, 0);
        return q.waitList[0];
      }
      var i := 0;
      while i < |q.waitList|
        invariant 0 <= i <= |q.waitList|
        invariant forall k :: 0 <= k < i ==> OtherProc(st, st.wait[q.pid][k], PidOf(from))
      {
        var t := q.waitList[i];
        MemberKnown(q.waitList, i);
        SameProc(t.proc, from);
        if t.proc == from {
          SenderAt(st, q.pid, PidOf(from), i);
          return t;
        }
        i := i + 1;
      }
      NoSender(st, q.pid, PidOf(from));
      return null;
    }

    method FindBlockedSender(target: Process, from: Process) returns (r: Thread?)
      requires Valid() && KnownProc(target) && KnownProc(from) && S.WellFormed(Abs())
      ensures r == null <==> S.FindBlockedSender(Abs(), Some(target.pid), from.pid) == None
      ensures r != null ==> Known(r) && S.FindBlockedSender(Abs(), Some(target.pid), from.pid) == Some(r.id)
    {
      hide Valid, AllKnown, Known, KnownProc, S.WellFormed, Abs, Values, Ids, S.FindReceiver, S.FindWaitingSender, S.FindBlockedSender;
      ghost var st := Abs();
      ListsKnown(from);
      var i := 0;
      while i < |from.threadList|
        invariant 0 <= i <= |from.threadList|
        invariant forall k :: 0 <= k < i ==> SleepsOn(st, st.members[from.pid][k], Some(target.pid))
      {
        var t := from.threadList[i];
        MemberKnown(from.threadList, i);
        SameProc(t.sendTo, target);
        if t.sendTo == target && t.run == S.Blocked && !(t.receiving && !t.sending) {
          BlockedAt(st, Some(target.pid), from.pid, i);
          return t;
        }
        i := i + 1;
      }
      NoBlocked(st, Some(target.pid), from.pid);
      return null;
    }

    /**
      The depth-first search for a chain of sends from `target` back to `sender`. On an
      acyclic graph it ends, since each call follows an edge, and it fails exactly when
      there is such a chain.
     */
    method Deadlock(sender: Process, target: Process) returns (res: S.Result)
      requires Valid() && KnownProc(sender) && KnownProc(target) && S.WellFormed(Abs()) && S.Acyclic(Abs())
      requires SendersHaveTargets(Abs())
      ensures res == S.IPC_FAILURE <==> S.Reaches(Abs(), target.pid, sender.pid)
      decreases |G.Beyond(Abs(), target.pid)|
    {
      hide Valid, AllKnown, Known, KnownProc, S.Acyclic, S.Reaches, Abs, Values, S.WellFormed, SendersHaveTargets, G.Beyond, NoChain;
      ghost var st := Abs();
      ghost var ids := Ids(target.threadList);
      ListsKnown(target);
      var i := 0;
      while i < |target.threadList|
        invariant 0 <= i <= |target.threadList|
        invariant forall k :: 0 <= k < i ==> NoChain(st, ids[k], sender.pid)
      {
        var t := target.threadList[i];
        MemberKnown(target.threadList, i);
        if t.sending && !t.receiving {
          SenderHasTarget(st, t.id);
          SameProc(t.sendTo, sender);
          FollowSend(st, target.pid, i, sender.pid);
          if t.sendTo == sender {
            return S.IPC_FAILURE;
          }
          var r := Deadlock(sender, t.sendTo);
          if r == S.IPC_FAILURE {
            return S.IPC_FAILURE;
          }
        }
        ChainAt(st, ids[i], sender.pid);
        i := i + 1;
      }
      NoChains(st, target.pid, sender.pid);
      return S.IPC_SUCCESS;
    }

    // ---- queue operations ----

    /** The abstract threads after `t` alone changed. */
    twostate lemma OneChanged(t: Thread)
      requires old(ThreadsValid()) && Known(t) && forall u :: u in threads && u != t ==> unchanged(u)
      requires t.proc == old(t.proc) && (t.sendTo == old(t.sendTo) || KnownProc(t.sendTo))
      requires t.recvFrom == old(t.recvFrom) || KnownProc(t.recvFrom)
      ensures ThreadsValid() && Values() == old(Values())[t.id := t.Value()]
    {
      forall i | 0 <= i < |threads| ensures Values()[i] == old(Values())[t.id := t.Value()][i] {
        assert threads[i] in threads;
      }
      forall i {:trigger threads[i]} | 0 <= i < |threads|
        ensures threads[i].id == i && KnownProc(threads[i].proc) && KnownProc(threads[i].sendTo) && KnownProc(threads[i].recvFrom)
      {
        assert threads[i] in threads;
        var u := threads[i];
        assert old(KnownProc(u.proc) && KnownProc(u.sendTo) && KnownProc(u.recvFrom));
      }
    }

    twostate lemma TwoChanged(p: (Thread, Thread))
      requires old(ThreadsValid()) && Known(p.0) && Known(p.1) && forall u :: u in threads && u != p.0 && u != p.1 ==> unchanged(u)
      requires p.0.proc == old(p.0.proc) && p.0.sendTo == old(p.0.sendTo) && (p.0.recvFrom == old(p.0.recvFrom) || KnownProc(p.0.recvFrom))
      requires p.1.proc == old(p.1.proc) && p.1.sendTo == old(p.1.sendTo) && p.1.recvFrom == old(p.1.recvFrom)
      ensures ThreadsValid() && Values() == old(Values())[p.0.id := p.0.Value()][p.1.id := p.1.Value()]
    {
      forall i | 0 <= i < |threads| ensures Values()[i] == old(Values())[p.0.id := p.0.Value()][p.1.id := p.1.Value()][i] {
        assert threads[i] in threads;
      }
      forall i {:trigger threads[i]} | 0 <= i < |threads|
        ensures threads[i].id == i && KnownProc(threads[i].proc) && KnownProc(threads[i].sendTo) && KnownProc(threads[i].recvFrom)
      {
        assert threads[i] in threads;
        var u := threads[i];
        assert old(KnownProc(u.proc) && KnownProc(u.sendTo) && KnownProc(u.recvFrom));
      }
    }

    twostate lemma ProcsUntouched()
      requires forall p :: p in procs.Values ==> unchanged(p)
      ensures WaitLists() == old(WaitLists()) && ThreadLists() == old(ThreadLists()) && ProcsValid() == old(ProcsValid())
    {
    }

    twostate lemma OneListChanged(q: Process)
      requires old(ProcsValid()) && KnownProc(q) && forall p :: p in procs.Values && p != q ==> unchanged(p)
      requires q.threadList == old(q.threadList) && AllKnown(q.waitList)
      ensures ProcsValid() && ThreadLists() == old(ThreadLists())
      ensures WaitLists() == old(WaitLists())[q.pid := Ids(q.waitList)]
    {
      forall p | p in procs
        ensures procs[p].pid == p && AllKnown(procs[p].threadList) && AllKnown(procs[p].waitList)
        ensures Ids(procs[p].threadList) == old(Ids(procs[p].threadList))
        ensures p != q.pid ==> Ids(procs[p].waitList) == old(Ids(procs[p].waitList))
      {
        var x := procs[p];
        assert x in procs.Values;
        assert old(x.pid == p && AllKnown(x.threadList) && AllKnown(x.waitList));
      }
    }

    twostate lemma WaitListWasKnown(q: Process)
      requires old(ProcsValid()) && KnownProc(q)
      ensures AllKnown(old(q.waitList))
    {
      assert old(AllKnown(procs[q.pid].waitList));
    }

    lemma KnownAppend(s: seq<Thread>, t: Thread)
      requires AllKnown(s) && Known(t)
      ensures AllKnown(s + [t])
    {
    }

    lemma KnownFields(t: Thread)
      requires ThreadsValid() && Known(t)
      ensures KnownProc(t.proc) && KnownProc(t.sendTo) && KnownProc(t.recvFrom)
      ensures t.id < |Values()| && Values()[t.id] == t.Value()
    {
    }

    // ---- the scheduler's queues ----

    method ReadyAdd(t: Thread)
      modifies this`ready, t`run
      ensures ready == old(ready) + [t] && t.run == S.Ready
    {
      ready := ready + [t];
      t.run := S.Ready;
    }

    method BlockedAdd(t: Thread)
      modifies this`blocked, t`run
      ensures blocked == old(blocked) + [t] && t.run == S.Blocked
    {
      blocked := blocked + [t];
      t.run := S.Blocked;
    }

    method ReadyRemove(t: Thread)
      modifies this`ready
      ensures ready == Remove(old(ready), t)
    {
      ready := Remove(ready, t);
    }

    method BlockedRemove(t: Thread)
      modifies this`blocked
      ensures blocked == Remove(old(blocked), t)
    {
      blocked := Remove(blocked, t);
    }

    /** The head of the ready queue goes to its tail; null when there is none. */
    method SchedElect() returns (th: Thread?)
      requires ready != [] ==> ready[0].run == S.Ready
      modifies this`ready, set t | t in ready :: t`run
      ensures if old(ready) == [] then th == null && ready == old(ready)
              else th == old(ready)[0] && ready == old(ready)[1..] + [th] && th.run == S.Ready
      ensures forall t :: t in old(ready) ==> t.run == old(t.run)
    {
      if |ready| == 0 { return null; }
      th := ready[0];
      ReadyRemove(th);
      ReadyAdd(th);
    }

    method CopyMsg(src: Thread, dest: Thread)
      modifies dest`ctx
      ensures dest.ctx == S.CopyMsg(old(src.ctx), old(dest.ctx))
    {
      dest.ctx := dest.ctx.(esi := src.ctx.esi);
      dest.ctx := dest.ctx.(ebx := src.ctx.ebx);
      dest.ctx := dest.ctx.(ecx := src.ctx.ecx);
      dest.ctx := dest.ctx.(edx := src.ctx.edx);
    }

    // ---- the system calls ----

    twostate lemma DeliverRefines(c: Parties)
      requires old(Valid()) && Known(c.t) && Known(c.r) && old(c.t.sendTo) == c.q && c.t != c.r
      requires forall u :: u in threads && u != c.r && u != c.t ==> unchanged(u)
      requires forall p :: p in procs.Values ==> unchanged(p)
      requires c.r.Value() == old(c.r.Value()).(ctx := S.CopyMsg(old(c.t.ctx), old(c.r.ctx)), receiving := false, run := S.Ready)
      requires c.t.Value() == old(c.t.Value()).(sending := false, run := S.Blocked)
      requires c.t.proc == old(c.t.proc) && c.t.sendTo == old(c.t.sendTo) && c.t.recvFrom == old(c.t.recvFrom)
      requires c.r.proc == old(c.r.proc) && c.r.sendTo == old(c.r.sendTo) && c.r.recvFrom == old(c.r.recvFrom)
      requires ready == Remove(old(ready) + [c.r], c.t) && blocked == Remove(old(blocked), c.r) + [c.t] && cur == old(cur)
      ensures Valid() && Abs() == S.Deliver(old(Abs()), c.t.id, c.q.pid, c.r.id)
    {
      hide ThreadsValid, ProcsValid, Values, WaitLists, ThreadLists, AllKnown, Ids, KnownProc;
      assert old(c.t.Value()) == old(Values())[c.t.id] && old(c.r.Value()) == old(Values())[c.r.id];
      QueuesMoved(old(ready), old(blocked), c.t, c.r);
      TwoChanged((c.r, c.t));
      ProcsUntouched();
    }

    /** Hand the message of `t` to the receiving `r` and block `t`. */
    method DeliverTo(t: Thread, q: Process, r: Thread)
      requires Valid() && Known(t) && Known(r) && KnownProc(q) && t != r && t.sendTo == q
      modifies this`ready, this`blocked, t`sending, t`run, r`ctx, r`receiving, r`run
      ensures Valid() && Abs() == S.Deliver(old(Abs()), t.id, q.pid, r.id)
    {
      hide ThreadsValid, ProcsValid, Values, WaitLists, ThreadLists, AllKnown, Ids, KnownProc, Known, Remove;
      CopyMsg(t, r);
      r.receiving := false;
      r.run := S.Ready;
      BlockedRemove(r);
      ReadyAdd(r);
      t.sending := false;
      ReadyRemove(t);
      BlockedAdd(t);
      DeliverRefines(Parties(t, r, q, null));
    }

    twostate lemma EnqueueRefines(c: (Thread, Process))
      requires old(Valid()) && Known(c.0) && KnownProc(c.1) && old(c.0.sendTo) == c.1 && old(c.0.sending)
      requires forall u :: u in threads && u != c.0 ==> unchanged(u)
      requires forall p :: p in procs.Values && p != c.1 ==> unchanged(p)
      requires c.1.threadList == old(c.1.threadList) && c.1.waitList == old(c.1.waitList) + [c.0]
      requires c.0.Value() == old(c.0.Value()).(run := S.Blocked)
      requires c.0.proc == old(c.0.proc) && c.0.sendTo == old(c.0.sendTo) && c.0.recvFrom == old(c.0.recvFrom)
      requires ready == Remove(old(ready), c.0) && blocked == old(blocked) && cur == old(cur)
      ensures Valid() && Abs() == S.Enqueue(old(Abs()), c.0.id, c.1.pid)
    {
      hide ThreadsValid, ProcsValid, Values, WaitLists, ThreadLists, AllKnown, Ids;
      assert old(c.0.Value()) == old(Values())[c.0.id];
      IdsRemove(old(ready), c.0);
      WaitListWasKnown(c.1);
      IdsAppend(old(c.1.waitList), c.0);
      KnownAppend(old(c.1.waitList), c.0);
      OneChanged(c.0);
      OneListChanged(c.1);
    }

    /** `t` joins the wait list of `q`. */
    method JoinWaitList(t: Thread, q: Process)
      requires Valid() && Known(t) && KnownProc(q) && t.sendTo == q && t.sending
      modifies this`ready, t`run, q`waitList
      ensures Valid() && Abs() == S.Enqueue(old(Abs()), t.id, q.pid)
    {
      hide ThreadsValid, ProcsValid, Values, WaitLists, ThreadLists, AllKnown, Ids, KnownProc, Known, Remove;
      ReadyRemove(t);
      q.waitList := q.waitList + [t];
      t.run := S.Blocked;
      EnqueueRefines((t, q));
    }

    twostate lemma TakeRefines(c: Parties)
      requires old(Valid()) && Known(c.t) && Known(c.r) && KnownProc(c.q) && KnownProc(c.from) && c.t != c.r
      requires forall u :: u in threads && u != c.r && u != c.t ==> unchanged(u)
      requires forall p :: p in procs.Values && p != c.q ==> unchanged(p)
      requires c.q.threadList == old(c.q.threadList) && c.q.waitList == Remove(old(c.q.waitList), c.r)
      requires c.t.Value() == old(c.t.Value()).(recvFrom := PidOf(c.from), ctx := S.CopyMsg(old(c.r.ctx), old(c.t.ctx)), receiving := false)
      requires c.r.Value() == old(c.r.Value()).(run := S.Ready, sending := false)
      requires c.t.proc == old(c.t.proc) && c.t.sendTo == old(c.t.sendTo) && c.t.recvFrom == c.from
      requires c.r.proc == old(c.r.proc) && c.r.sendTo == old(c.r.sendTo) && c.r.recvFrom == old(c.r.recvFrom)
      requires ready == old(ready) + [c.r] && blocked == old(blocked) && cur == old(cur)
      ensures Valid() && Abs() == S.Take(old(Abs()), c.t.id, PidOf(c.from), c.q.pid, c.r.id)
    {
      hide ThreadsValid, ProcsValid, Values, WaitLists, ThreadLists, AllKnown, Ids;
      assert old(c.t.Value()) == old(Values())[c.t.id] && old(c.r.Value()) == old(Values())[c.r.id];
      IdsAppend(old(ready), c.r);
      KnownAppend(old(ready), c.r);
      WaitListWasKnown(c.q);
      IdsRemove(old(c.q.waitList), c.r);
      TwoChanged((c.t, c.r));
      OneListChanged(c.q);
    }

    /** `t` takes the message of the first matching sender `a`, which goes on. */
    method TakeFrom(t: Thread, me: Process, a: Thread)
      requires Valid() && Known(t) && Known(a) && KnownProc(me) && t != a && t.receiving
      requires KnownProc(t.recvFrom)
      modifies this`ready, t`ctx, t`receiving, a`run, a`sending, me`waitList
      ensures Valid() && Abs() == S.Take(old(Abs()), t.id, PidOf(t.recvFrom), me.pid, a.id)
    {
      hide ThreadsValid, ProcsValid, Values, WaitLists, ThreadLists, AllKnown, Ids, KnownProc, Known, Remove;
      CopyMsg(a, t);
      a.run := S.Ready;
      a.sending := false;
      me.waitList := Remove(me.waitList, a);
      ReadyAdd(a);
      t.receiving := false;
      TakeRefines(Parties(t, a, me, t.recvFrom));
    }

    twostate lemma AwaitRefines(t: Thread)
      requires old(Valid()) && Known(t) && old(t.receiving)
      requires forall u :: u in threads && u != t ==> unchanged(u)
      requires forall p :: p in procs.Values ==> unchanged(p)
      requires t.Value() == old(t.Value()).(run := S.Blocked)
      requires t.proc == old(t.proc) && t.sendTo == old(t.sendTo) && t.recvFrom == old(t.recvFrom)
      requires ready == Remove(old(ready), t) && blocked == old(blocked) + [t] && cur == old(cur)
      ensures Valid() && Abs() == S.Await(old(Abs()), t.id, PidOf(t.recvFrom))
    {
      hide ThreadsValid, ProcsValid, Values, WaitLists, ThreadLists, AllKnown, Ids;
      assert old(t.Value()) == old(Values())[t.id];
      IdsRemove(old(ready), t);
      IdsAppend(old(blocked), t);
      KnownAppend(old(blocked), t);
      OneChanged(t);
      ProcsUntouched();
    }

    method AwaitSender(t: Thread)
      requires Valid() && Known(t) && t.receiving
      modifies this`ready, this`blocked, t`run
      ensures Valid() && Abs() == S.Await(old(Abs()), t.id, PidOf(t.recvFrom))
    {
      hide ThreadsValid, ProcsValid, Values, WaitLists, ThreadLists, AllKnown, Ids, KnownProc, Known, Remove;
      t.run := S.Blocked;
      ReadyRemove(t);
      BlockedAdd(t);
      AwaitRefines(t);
    }

    twostate lemma WakeRefines(u: Thread)
      requires old(Valid()) && Known(u)
      requires forall t :: t in threads && t != u ==> unchanged(t)
      requires forall p :: p in procs.Values ==> unchanged(p)
      requires u.Value() == old(u.Value()).(run := S.Ready, sending := false)
      requires u.proc == old(u.proc) && u.sendTo == old(u.sendTo) && u.recvFrom == old(u.recvFrom)
      requires ready == old(ready) + [u] && blocked == Remove(old(blocked), u) && cur == old(cur)
      ensures Valid() && Abs() == S.Wake(old(Abs()), u.id)
    {
      hide ThreadsValid, ProcsValid, Values, WaitLists, ThreadLists, AllKnown, Ids;
      assert old(u.Value()) == old(Values())[u.id];
      IdsRemove(old(blocked), u);
      IdsAppend(old(ready), u);
      KnownAppend(old(ready), u);
      OneChanged(u);
      ProcsUntouched();
    }

    method WakeUp(u: Thread)
      requires Valid() && Known(u)
      modifies this`ready, this`blocked, u`run, u`sending
      ensures Valid() && Abs() == S.Wake(old(Abs()), u.id)
    {
      hide ThreadsValid, ProcsValid, Values, WaitLists, ThreadLists, AllKnown, Ids, KnownProc, Known, Remove;
      u.run := S.Ready;
      u.sending := false;
      BlockedRemove(u);
      ReadyAdd(u);
      WakeRefines(u);
    }

    twostate lemma WakeQueuedRefines(c: (Thread, Process))
      requires old(Valid()) && Known(c.0) && KnownProc(c.1)
      requires forall t :: t in threads && t != c.0 ==> unchanged(t)
      requires forall p :: p in procs.Values && p != c.1 ==> unchanged(p)
      requires c.1.threadList == old(c.1.threadList) && c.1.waitList == Unhooked(old(c.1.waitList), c.0, old(ready))
      requires c.0.Value() == old(c.0.Value()).(run := S.Ready, sending := false)
      requires c.0.proc == old(c.0.proc) && c.0.sendTo == old(c.0.sendTo) && c.0.recvFrom == old(c.0.recvFrom)
      requires ready == old(ready) + [c.0] && blocked == Remove(old(blocked), c.0) && cur == old(cur)
      ensures Valid() && c.1.pid in old(Abs()).wait && c.0.id < |old(Abs()).th|
      ensures var st := old(Abs());
        Abs() == S.Wake(st, c.0.id).(wait := st.wait[c.1.pid := Unhooked(st.wait[c.1.pid], c.0.id, st.ready)])
    {
      hide ThreadsValid, ProcsValid, Values, WaitLists, ThreadLists, AllKnown, Ids, Remove, Unhooked;
      assert old(c.0.Value()) == old(Values())[c.0.id];
      IdsRemove(old(blocked), c.0);
      IdsAppend(old(ready), c.0);
      KnownAppend(old(ready), c.0);
      WaitListWasKnown(c.1);
      IdsUnhooked(old(c.1.waitList), c.0, old(ready));
      OneChanged(c.0);
      OneListChanged(c.1);
    }

    /** The same updates on a thread that is still linked in the wait list of `me`. */
    method WakeQueued(u: Thread, me: Process)
      requires Valid() && Known(u) && KnownProc(me)
      modifies this`ready, this`blocked, u`run, u`sending, me`waitList
      ensures Valid() && me.pid in old(Abs()).wait && u.id < |old(Abs()).th|
      ensures var st := old(Abs());
        Abs() == S.Wake(st, u.id).(wait := st.wait[me.pid := Unhooked(st.wait[me.pid], u.id, st.ready)])
    {
      hide ThreadsValid, ProcsValid, Values, WaitLists, ThreadLists, AllKnown, Ids, KnownProc, Known, Remove, Unhooked;
      u.run := S.Ready;
      u.sending := false;
      me.waitList := Unhooked(me.waitList, u, ready);
      BlockedRemove(u);
      ReadyAdd(u);
      WakeQueuedRefines((u, me));
    }

    twostate lemma ElectRefines()
      requires old(Valid())
      requires forall u :: u in threads ==>
        u.Value() == old(u.Value()) && u.proc == old(u.proc) && u.sendTo == old(u.sendTo) && u.recvFrom == old(u.recvFrom)
      requires forall p :: p in procs.Values ==> unchanged(p)
      requires blocked == old(blocked)
      requires if old(ready) == [] then ready == old(ready) && cur == old(cur)
               else ready == old(ready)[1..] + [old(ready)[0]] && cur == old(ready)[0]
      ensures Valid() && Abs() == S.Elect(old(Abs()))
    {
      hide ProcsValid, WaitLists, ThreadLists;
      ProcsUntouched();
      assert Values() == old(Values()) && ThreadsValid() by {
        forall i | 0 <= i < |threads| ensures threads[i] in threads {}
      }
      if old(ready) != [] {
        IdsAppend(old(ready)[1..], old(ready)[0]);
        assert Ids(old(ready))[1..] == Ids(old(ready)[1..]);
      }
    }

    /** Elect the next thread and switch to it, as the clock does and a blocking call. */
    method Schedule()
      requires Valid() && (ready != [] ==> ready[0].run == S.Ready)
      modifies this`ready, this`cur, threads
      ensures Valid() && Abs() == S.Elect(old(Abs()))
    {
      hide ThreadsValid, ProcsValid, Values, WaitLists, ThreadLists, KnownProc, Remove;
      assert AllKnown(ready);
      var th := SchedElect();
      if th != null { cur := th; }
      ElectRefines();
    }

    /** A thread at the head of a consistent ready queue is ready. */
    lemma HeadReady()
      requires Valid() && I.Core(Abs())
      ensures ready != [] ==> ready[0].run == S.Ready
    {
      if ready != [] {
        MemberKnown(ready, 0);
        assert Ids(ready)[0] in Ids(ready);
        assert I.Placed(Abs(), ready[0].id);
      }
    }

    lemma CurKnown()
      requires Valid() && I.CanCall(Abs())
      ensures Known(cur) && KnownProc(cur.proc) && cur.proc != null && cur in threads && cur.proc in procs.Values
      ensures Abs().cur == cur.id && cur.id < |Abs().th|
      ensures Abs().th[cur.id].proc == Some(cur.proc.pid) && Abs().th[cur.id].ctx == cur.ctx
      ensures SendersHaveTargets(Abs()) && cur.proc.pid in Abs().members && cur.proc.pid < 0x1_0000_0000
    {
      KnownFields(cur);
      var st := Abs();
      forall t {:trigger st.th[t]} | 0 <= t < |st.th| && st.th[t].IsSending() ensures st.th[t].sendTo.Some? {
        assert I.Placed(st, t);
      }
    }

    lemma TargetKnown(q: Process?)
      requires Valid() && KnownProc(q)
      ensures PidOf(q) == if q == null then None else Some(q.pid)
      ensures q != null ==> q.pid in Abs().members && q in procs.Values
    {
    }

    lemma LiveTarget(pid: S.Pid)
      requires Valid() && pid in procs
      ensures procs[pid].pid == pid && KnownProc(procs[pid]) && pid in Abs().members
    {
    }

    lemma NobodyKnown()
      ensures KnownProc(null)
    {
    }

    lemma NoTarget(pid: S.Pid)
      requires pid !in procs
      ensures pid !in Abs().members
    {
    }

    lemma CtxKnown(t: Thread)
      requires Valid() && Known(t)
      ensures t.id < |Abs().th| && Abs().th[t.id].ctx == t.ctx
    {
      KnownFields(t);
    }

    lemma ThreadKnown(t: Thread)
      requires Known(t)
      ensures t in threads
    {
    }

    lemma SendingKnown(u: Thread)
      requires Valid() && Known(u)
      ensures u.id < |Abs().th| && Abs().th[u.id].sending == u.sending
    {
      hide WaitLists, ThreadLists, Ids;
    }

    method MarkSending(t: Thread, q: Process)
      requires Valid() && Known(t) && KnownProc(q)
      modifies t`sending, t`sendTo
      ensures Valid() && Abs() == S.Sending(old(Abs()), t.id, q.pid) && t.sendTo == q && t.sending
    {
      hide ThreadsValid, ProcsValid, Values, WaitLists, ThreadLists, AllKnown, Ids, KnownProc;
      assert old(t.Value()) == old(Values())[t.id];
      t.sending := true;
      t.sendTo := q;
      OneChanged(t);
      ProcsUntouched();
    }

    /** The caller announces that it receives, and from whom. */
    method MarkReceiving(t: Thread, from: Process?)
      requires Valid() && Known(t) && KnownProc(from)
      modifies t`receiving, t`recvFrom
      ensures Valid() && Abs() == Receiving(old(Abs()), t.id, PidOf(from)) && t.recvFrom == from && t.receiving
    {
      hide ThreadsValid, ProcsValid, Values, WaitLists, ThreadLists, AllKnown, Ids, KnownProc;
      assert old(t.Value()) == old(Values())[t.id];
      t.receiving := true;
      t.recvFrom := from;
      OneChanged(t);
      ProcsUntouched();
    }

    method SetRegs(t: Thread, regs: S.Regs)
      requires Valid() && Known(t)
      modifies t`ctx
      ensures Valid() && Abs() == S.SetReg(old(Abs()), t.id, regs) && t.ctx == regs
    {
      hide ThreadsValid, ProcsValid, Values, WaitLists, ThreadLists, AllKnown, Ids, KnownProc;
      assert old(t.Value()) == old(Values())[t.id];
      t.ctx := regs;
      OneChanged(t);
      ProcsUntouched();
    }

    method Send(q: Process?) returns (res: S.Result)
      requires Valid() && I.CanCall(Abs()) && S.Acyclic(Abs()) && KnownProc(q)
      modifies this`ready, this`blocked, this`cur, threads, procs.Values
      ensures Valid() && (Abs(), res) == S.Send(old(Abs()), old(cur.id), PidOf(q))
    {
      hide *;
      ghost var st := Abs();
      CurKnown();
      TargetKnown(q);
      if q == null {
        SendRefused(st, None);
        return S.IPC_FAILURE;
      }
      CallerSafe(st);
      res := Deadlock(cur.proc, q);
      if res == S.IPC_FAILURE {
        SendRefused(st, Some(q.pid));
        return;
      }
      SendPath(st, q.pid);
      MarkSending(cur, q);
      var r := FindReceiver(q, cur.proc);
      if r != null {
        ThreadKnown(r);
        DeliverTo(cur, q, r);
      } else {
        JoinWaitList(cur, q);
      }
      HeadReady();
      Schedule();
    }

    method Receive(from: Process?)
      requires Valid() && I.CanCall(Abs()) && KnownProc(from)
      modifies this`ready, this`blocked, this`cur, threads, procs.Values
      ensures Valid() && Abs() == S.Receive(old(Abs()), old(cur.id), PidOf(from))
    {
      hide *;
      ghost var st := Abs();
      CurKnown();
      TargetKnown(from);
      ReceivePath(st, PidOf(from));
      MarkReceiving(cur, from);
      var a := FindWaitingSender(cur.proc, from);
      if a != null {
        ThreadKnown(a);
        TakeFrom(cur, cur.proc, a);
      } else {
        AwaitSender(cur);
        HeadReady();
        Schedule();
      }
    }

    method Notify(to: Process)
      requires Valid() && I.CanCall(Abs()) && KnownProc(to)
      modifies this`ready, this`blocked, threads, procs.Values
      ensures Valid() && Abs() == S.Notify(old(Abs()), PidOf(old(cur.proc)), to.pid)
    {
      hide *;
      ghost var st := Abs();
      CurKnown();
      TargetKnown(to);
      TargetKnown(cur.proc);
      CallerSafe(st);
      NotifyPath(st, to.pid);
      var u := FindBlockedSender(cur.proc, to);
      if u != null {
        ThreadKnown(u);
        SendingKnown(u);
        if u.sending {
          WakeQueued(u, cur.proc);
        } else {
          WakeUp(u);
        }
      }
    }

    /** The system call interrupt, with the call in the registers of the running thread. */
    method SyscallHandle()
      requires Valid() && I.CanCall(Abs()) && S.Acyclic(Abs()) && CallAllowed(Abs())
      modifies this`ready, this`blocked, this`cur, threads, procs.Values
      ensures Valid() && Abs() == S.Handle(old(Abs()))
    {
      hide *;
      ghost var st := Abs();
      CurKnown();
      TargetKnown(cur.proc);
      EntryPath(st);
      var th := cur;
      var num := th.ctx.esi;
      var pid := th.ctx.edi;
      var res := S.IPC_FAILURE;
      SetRegs(th, th.ctx.(esi := th.proc.pid));
      ghost var e := Abs();
      DispatchPath(st, num, pid);
      if pid == S.IPC_ANY || pid in procs {
        var target := null;
        NobodyKnown();
        if pid != S.IPC_ANY {
          target := procs[pid];
          LiveTarget(pid);
        }
        TargetKnown(target);
        if num == S.SYSCALL_SEND {
          res := Send(target);
        } else if num == S.SYSCALL_RECEIVE {
          Receive(target);
          res := S.IPC_SUCCESS;
        } else if num == S.SYSCALL_NOTIFY {
          Notify(target);
          res := S.IPC_SUCCESS;
        }
      } else {
        NoTarget(pid);
      }
      assert (Abs(), res) == S.Dispatch(e, num, pid);
      CtxKnown(th);
      SetRegs(th, th.ctx.(eax := res.Code()));
    }

    /** The clock interrupt: whoever runs, the head of the ready queue is next. */
    method ClockHandler()
      requires Valid() && I.Core(Abs())
      modifies this`ready, this`cur, threads
      ensures Valid() && Abs() == S.Elect(old(Abs()))
    {
      hide *;
      HeadReady();
      Schedule();
    }

    lemma QueuesMoved(rd: seq<Thread>, bl: seq<Thread>, t: Thread, r: Thread)
      requires AllKnown(rd) && AllKnown(bl) && Known(t) && Known(r)
      ensures Ids(Remove(rd + [r], t)) == Remove(Ids(rd) + [r.id], t.id) && AllKnown(Remove(rd + [r], t))
      ensures Ids(Remove(bl, r) + [t]) == Remove(Ids(bl), r.id) + [t.id] && AllKnown(Remove(bl, r) + [t])
    {
      IdsAppend(rd, r);
      KnownAppend(rd, r);
      IdsRemove(rd + [r], t);
      IdsRemove(bl, r);
      IdsAppend(Remove(bl, r), t);
      KnownAppend(Remove(bl, r), t);
    }

    lemma IdsRemove(s: seq<Thread>, t: Thread)
      requires AllKnown(s) && Known(t)
      ensures Ids(Remove(s, t)) == Remove(Ids(s), t.id) && AllKnown(Remove(s, t))
    {
      if s != [] {
        assert AllKnown(s[1..]);
        IdsRemove(s[1..], t);
        if s[0] != t {
          assert Remove(s, t)[1..] == Remove(s[1..], t);
        }
      }
    }

    lemma IdsUnhooked(s: seq<Thread>, t: Thread, r: seq<Thread>)
      requires AllKnown(s) && Known(t) && AllKnown(r)
      ensures Ids(Unhooked(s, t, r)) == Unhooked(Ids(s), t.id, Ids(r)) && AllKnown(Unhooked(s, t, r))
    {
      IdsRemove(s, t);
      assert ([t] + r)[1..] == r;
    }
  }

  /** The idle thread and two processes of one thread each, as thread_create and proc_add_thread leave them. */
  method Boot() returns (k: Kernel)
    ensures fresh(k) && k.Valid() && R.Initial(k.Abs()) && |k.threads| == 3
    ensures |k.Abs().th| == 3 && k.Abs().th[1].proc == Some(1) && k.Abs().th[2].proc == Some(2)
  {
    hide R.Initial;
    var still := S.Regs(0, 0, 0, 0, 0, 0);
    var idle := new Thread(0, still);
    var a := new Thread(1, still);
    var b := new Thread(2, still);
    var p := new Process(1);
    var q := new Process(2);
    a.proc, b.proc := p, q;
    p.threadList, q.threadList := [a], [b];
    k := new Kernel([idle, a, b], map[1 := p, 2 := q], idle);
    assert Booted(k, idle, a, b);
    BootValid(k, idle, a, b);
    BootInitial(k, idle, a, b);
  }

  ghost predicate Booted(k: Kernel, idle: Thread, a: Thread, b: Thread)
    reads k, idle, a, b, a.proc, b.proc
  {
    && k.threads == [idle, a, b] && k.ready == k.threads && k.blocked == [] && k.cur == idle
    && idle.id == 0 && a.id == 1 && b.id == 2 && idle.proc == null && a.proc != null && b.proc != null
    && k.procs == map[1 := a.proc, 2 := b.proc] && a.proc.pid == 1 && b.proc.pid == 2
    && a.proc.threadList == [a] && b.proc.threadList == [b] && a.proc.waitList == [] && b.proc.waitList == []
    && AtRest(idle) && AtRest(a) && AtRest(b)
  }

  ghost predicate AtRest(t: Thread)
    reads t
  {
    t.run == S.Ready && !t.sending && !t.receiving && t.sendTo == null && t.recvFrom == null
  }

  lemma BootValid(k: Kernel, idle: Thread, a: Thread, b: Thread)
    requires Booted(k, idle, a, b)
    ensures k.Valid()
  {
  }

  lemma BootLists(k: Kernel, idle: Thread, a: Thread, b: Thread)
    requires Booted(k, idle, a, b)
    ensures Ids(k.ready) == [0, 1, 2] && Ids(k.blocked) == []
    ensures k.ThreadLists() == map[1 := [1], 2 := [2]] && k.WaitLists() == map[1 := [], 2 := []]
  {
    assert Ids([idle, a, b]) == [0, 1, 2] && Ids([a]) == [1] && Ids([b]) == [2];
  }

  lemma BootInitial(k: Kernel, idle: Thread, a: Thread, b: Thread)
    requires Booted(k, idle, a, b)
    ensures R.Initial(k.Abs()) && |k.Abs().th| == 3
    ensures k.Abs().th[1].proc == Some(1) && k.Abs().th[2].proc == Some(2)
  {
    hide R.Initial, S.WellFormed, I.Membership, Ids, k.Values, k.WaitLists, k.ThreadLists;
    BootLists(k, idle, a, b);
    assert k.threads[0] == idle && k.threads[1] == a && k.threads[2] == b;
    R.SmallInitial(k.Abs());
  }

  function Receiving(s: S.State, t: S.Tid, from: Option<S.Pid>): S.State
    requires t < |s.th|
  {
    s.(th := s.th[t := s.th[t].(receiving := true, recvFrom := from)])
  }

  lemma CallerSafe(st: S.State)
    requires I.CanCall(st)
    ensures S.WellFormed(st) && st.cur < |st.th| && st.th[st.cur].proc.Some?
  {
  }

  lemma SendRefused(st: S.State, q: Option<S.Pid>)
    requires I.CanCall(st) && (q.Some? ==> q.value in st.members)
    requires q.Some? ==> S.Reaches(st, q.value, st.th[st.cur].proc.value)
    ensures S.Send(st, st.cur, q) == (st, S.IPC_FAILURE)
  {
  }

  /** Marking the caller first changes neither the search nor what a send leaves. */
  lemma SendPath(st: S.State, q: S.Pid)
    requires I.CanCall(st) && q in st.members && !S.Reaches(st, q, st.th[st.cur].proc.value)
    ensures S.WellFormed(S.Sending(st, st.cur, q)) && q in S.Sending(st, st.cur, q).members
    ensures var m := S.Sending(st, st.cur, q);
      match S.FindReceiver(m, q, st.th[st.cur].proc)
      case Some(r) => (
        && r < |m.th| && r != st.cur && I.Core(S.Deliver(m, st.cur, q, r))
        && S.Send(st, st.cur, Some(q)) == (S.Elect(S.Deliver(m, st.cur, q, r)), S.IPC_SUCCESS))
      case None => (
        && q in m.wait && I.Core(S.Enqueue(m, st.cur, q))
        && S.Send(st, st.cur, Some(q)) == (S.Elect(S.Enqueue(m, st.cur, q)), S.IPC_SUCCESS))
  {
    hide S.Reaches, S.Enqueue, S.Deliver, S.Elect, S.Send, I.Core, S.FindReceiver;
    CallerSafe(st);
    MarkedSame(st, st.cur, q);
    R.SendOutcome(st, q);
    SendUnfolds(st, q);
  }

  lemma MarkedSame(s: S.State, t: S.Tid, q: S.Pid)
    requires S.WellFormed(s) && t < |s.th| && q in s.members
    ensures S.WellFormed(S.Sending(s, t, q))
    ensures S.Enqueue(S.Sending(s, t, q), t, q) == S.Enqueue(s, t, q)
    ensures forall r :: 0 <= r < |s.th| && r != t ==> S.Deliver(S.Sending(s, t, q), t, q, r) == S.Deliver(s, t, q, r)
  {
  }

  lemma SendUnfolds(st: S.State, q: S.Pid)
    requires I.CanCall(st) && q in st.members && !S.Reaches(st, q, st.th[st.cur].proc.value)
    ensures match S.FindReceiver(S.Sending(st, st.cur, q), q, st.th[st.cur].proc)
      case Some(r) => r < |st.th| && S.Send(st, st.cur, Some(q)) == (S.Elect(S.Deliver(st, st.cur, q, r)), S.IPC_SUCCESS)
      case None => S.Send(st, st.cur, Some(q)) == (S.Elect(S.Enqueue(st, st.cur, q)), S.IPC_SUCCESS)
  {
  }

  /** Marking the caller first changes neither the search nor what a receive leaves. */
  lemma ReceivePath(st: S.State, from: Option<S.Pid>)
    requires I.CanCall(st)
    ensures st.cur < |st.th| && st.th[st.cur].proc.Some?
    ensures var m := Receiving(st, st.cur, from); var me := st.th[st.cur].proc.value;
      && S.WellFormed(m) && me in m.wait
      && match S.FindWaitingSender(m, me, from)
         case Some(a) => (
           && a < |m.th| && a != st.cur && I.Core(S.Take(m, st.cur, from, me, a))
           && S.Receive(st, st.cur, from) == S.Take(m, st.cur, from, me, a))
         case None => (
           && I.Core(S.Await(m, st.cur, from))
           && S.Receive(st, st.cur, from) == S.Elect(S.Await(m, st.cur, from)))
  {
    hide I.Core, S.Take, S.Await, S.Elect, S.Receive, S.FindWaitingSender;
    CallerIn(st);
    ReceivingSame(st, st.cur, from, st.th[st.cur].proc.value);
    R.ReceiveOutcome(st, from);
    ReceiveUnfolds(st, from);
  }

  lemma CallerIn(st: S.State)
    requires I.CanCall(st)
    ensures S.WellFormed(st) && st.cur < |st.th| && st.th[st.cur].proc.Some? && st.th[st.cur].proc.value in st.wait
  {
  }

  lemma ReceivingSame(s: S.State, t: S.Tid, from: Option<S.Pid>, me: S.Pid)
    requires S.WellFormed(s) && t < |s.th| && me in s.wait
    ensures var m := Receiving(s, t, from);
      && S.WellFormed(m) && S.FindWaitingSender(m, me, from) == S.FindWaitingSender(s, me, from)
      && S.Await(m, t, from) == S.Await(s, t, from)
      && forall a :: 0 <= a < |s.th| && a != t ==> S.Take(m, t, from, me, a) == S.Take(s, t, from, me, a)
  {
    var m := Receiving(s, t, from);
    FirstSame(s.wait[me], (u: S.Tid) => u < |m.th| && m.th[u].proc == from, (u: S.Tid) => u < |s.th| && s.th[u].proc == from);
  }

  lemma ReceiveUnfolds(st: S.State, from: Option<S.Pid>)
    requires I.CanCall(st)
    ensures var me := st.th[st.cur].proc.value;
      match S.FindWaitingSender(st, me, from)
      case Some(a) => a < |st.th| && S.Receive(st, st.cur, from) == S.Take(st, st.cur, from, me, a)
      case None => S.Receive(st, st.cur, from) == S.Elect(S.Await(st, st.cur, from))
  {
  }

  lemma NotifyPath(st: S.State, p: S.Pid)
    requires I.CanCall(st) && p in st.members
    ensures var me := st.th[st.cur].proc;
      match S.FindBlockedSender(st, me, p)
      case Some(u) => (
        && u < |st.th|
        && S.Notify(st, me, p) ==
             if st.th[u].sending then S.Wake(st, u).(wait := st.wait[me.value := Unhooked(st.wait[me.value], u, st.ready)])
             else S.Wake(st, u))
      case None => S.Notify(st, me, p) == st
  {
    match S.FindBlockedSender(st, st.th[st.cur].proc, p)
    case Some(u) => assert I.Placed(st, u);
    case None =>
  }

  lemma EntryPath(st: S.State)
    requires I.CanCall(st) && S.Acyclic(st)
    ensures var e := S.Entered(st);
      && I.CanCall(e) && S.Acyclic(e) && e.cur == st.cur && e.members == st.members
      && e.th[e.cur].proc == st.th[st.cur].proc
      && e == S.SetReg(st, st.cur, st.th[st.cur].ctx.(esi := st.th[st.cur].proc.value))
  {
    R.SetRegKeeps(st, st.cur, S.Entered(st).th[st.cur].ctx);
    R.SameEdges(st, st.cur, S.Entered(st).th[st.cur].ctx);
  }

  /** The caller's request is one the programs may make. */
  ghost predicate CallAllowed(st: S.State)
    requires I.CanCall(st)
  {
    var regs := st.th[st.cur].ctx;
    regs.esi == S.SYSCALL_NOTIFY ==> regs.edi != S.IPC_ANY
  }

  lemma DispatchPath(st: S.State, num: S.Word, dest: S.Word)
    requires I.CanCall(st) && S.Acyclic(st) && CallAllowed(st)
    requires num == st.th[st.cur].ctx.esi && dest == st.th[st.cur].ctx.edi
    ensures num == S.SYSCALL_NOTIFY ==> dest != S.IPC_ANY
    ensures I.CanCall(S.Entered(st)) && st.cur < |st.th| && |S.Dispatch(S.Entered(st), num, dest).0.th| == |st.th|
    ensures var e := S.Entered(st);
      && S.WellFormed(e) && e.th[e.cur].proc.Some?
      && (dest != S.IPC_ANY && dest !in st.members ==> S.Dispatch(e, num, dest) == (e, S.IPC_FAILURE))
      && (dest == S.IPC_ANY || dest in st.members ==>
            && (num == S.SYSCALL_SEND ==> S.Dispatch(e, num, dest) == S.Send(e, e.cur, S.Target(dest)))
            && (num == S.SYSCALL_RECEIVE ==> S.Dispatch(e, num, dest) == (S.Receive(e, e.cur, S.Target(dest)), S.IPC_SUCCESS))
            && (num == S.SYSCALL_NOTIFY ==> S.Dispatch(e, num, dest) == (S.Notify(e, e.th[e.cur].proc, dest), S.IPC_SUCCESS))
            && (num !in {S.SYSCALL_SEND, S.SYSCALL_RECEIVE, S.SYSCALL_NOTIFY} ==> S.Dispatch(e, num, dest) == (e, S.IPC_FAILURE)))
    ensures S.Target(S.IPC_ANY) == None && (dest != S.IPC_ANY ==> S.Target(dest) == Some(dest))
    ensures var (s1, res) := S.Dispatch(S.Entered(st), num, dest);
      S.Handle(st) == S.SetReg(s1, st.cur, s1.th[st.cur].ctx.(eax := res.Code()))
  {
    EntryPath(st);
    R.DispatchSize(S.Entered(st), num, dest);
  }

  // ---- what a search has seen so far ----

  ghost predicate Refuses(st: S.State, t: S.Tid, from: Option<S.Pid>) {
    t < |st.th| && !S.Accepts(st.th[t], from)
  }

  ghost predicate OtherProc(st: S.State, t: S.Tid, from: Option<S.Pid>) {
    t < |st.th| && st.th[t].proc != from
  }

  ghost predicate SleepsOn(st: S.State, t: S.Tid, notifier: Option<S.Pid>) {
    t < |st.th| && !S.Wakeable(st.th[t], notifier)
  }

  lemma ReceiverAt(st: S.State, q: S.Pid, from: Option<S.Pid>, i: nat)
    requires q in st.members && i < |st.members[q]| && st.members[q][i] < |st.th|
    requires S.Accepts(st.th[st.members[q][i]], from)
    requires forall k :: 0 <= k < i ==> Refuses(st, st.members[q][k], from)
    ensures S.FindReceiver(st, q, from) == Some(st.members[q][i])
  {
    FirstFound(st.members[q], (t: S.Tid) => t < |st.th| && S.Accepts(st.th[t], from), i);
  }

  lemma NoReceiver(st: S.State, q: S.Pid, from: Option<S.Pid>)
    requires q in st.members && forall k :: 0 <= k < |st.members[q]| ==> Refuses(st, st.members[q][k], from)
    ensures S.FindReceiver(st, q, from) == None
  {
  }

  lemma SenderHead(st: S.State, q: S.Pid, from: Option<S.Pid>)
    requires q in st.wait && (st.wait[q] == [] || from.None?)
    ensures S.FindWaitingSender(st, q, from) == if st.wait[q] == [] then None else Some(st.wait[q][0])
  {
  }

  lemma SenderAt(st: S.State, q: S.Pid, from: Option<S.Pid>, i: nat)
    requires q in st.wait && i < |st.wait[q]| && st.wait[q][i] < |st.th| && from.Some?
    requires st.th[st.wait[q][i]].proc == from
    requires forall k :: 0 <= k < i ==> OtherProc(st, st.wait[q][k], from)
    ensures S.FindWaitingSender(st, q, from) == Some(st.wait[q][i])
  {
    FirstFound(st.wait[q], (t: S.Tid) => t < |st.th| && st.th[t].proc == from, i);
  }

  lemma NoSender(st: S.State, q: S.Pid, from: Option<S.Pid>)
    requires q in st.wait && from.Some? && forall k :: 0 <= k < |st.wait[q]| ==> OtherProc(st, st.wait[q][k], from)
    ensures S.FindWaitingSender(st, q, from) == None
  {
  }

  lemma BlockedAt(st: S.State, notifier: Option<S.Pid>, p: S.Pid, i: nat)
    requires p in st.members && i < |st.members[p]| && st.members[p][i] < |st.th|
    requires S.Wakeable(st.th[st.members[p][i]], notifier)
    requires forall k :: 0 <= k < i ==> SleepsOn(st, st.members[p][k], notifier)
    ensures S.FindBlockedSender(st, notifier, p) == Some(st.members[p][i])
  {
    FirstFound(st.members[p], (t: S.Tid) => t < |st.th| && S.Wakeable(st.th[t], notifier), i);
  }

  lemma NoBlocked(st: S.State, notifier: Option<S.Pid>, p: S.Pid)
    requires p in st.members && forall k :: 0 <= k < |st.members[p]| ==> SleepsOn(st, st.members[p][k], notifier)
    ensures S.FindBlockedSender(st, notifier, p) == None
  {
  }

  /** A sending thread knows its target. */
  ghost predicate SendersHaveTargets(st: S.State) {
    forall t {:trigger st.th[t]} :: 0 <= t < |st.th| && st.th[t].IsSending() ==> st.th[t].sendTo.Some?
  }

  lemma SenderHasTarget(st: S.State, t: S.Tid)
    requires SendersHaveTargets(st) && t < |st.th| && st.th[t].IsSending()
    ensures st.th[t].sendTo.Some?
  {
  }

  /** The thread does not start a chain of sends that leads to `p`. */
  ghost predicate NoChain(st: S.State, t: S.Tid, p: S.Pid) {
    t < |st.th| && (st.th[t].IsSending() ==>
      st.th[t].sendTo.Some? && st.th[t].sendTo.value != p && !S.Reaches(st, st.th[t].sendTo.value, p))
  }

  lemma ChainAt(st: S.State, t: S.Tid, p: S.Pid)
    requires t < |st.th|
    requires st.th[t].IsSending() ==>
      st.th[t].sendTo.Some? && st.th[t].sendTo.value != p && !S.Reaches(st, st.th[t].sendTo.value, p)
    ensures NoChain(st, t, p)
  {
  }

  /** The edge of a sending thread leads to a smaller search, and any chain found there extends back. */
  lemma FollowSend(st: S.State, q: S.Pid, i: nat, p: S.Pid)
    requires S.WellFormed(st) && S.Acyclic(st) && q in st.members && i < |st.members[q]|
    requires var t := st.members[q][i]; t < |st.th| && st.th[t].IsSending() && st.th[t].sendTo.Some?
    ensures var n := st.th[st.members[q][i]].sendTo.value;
      && n in st.members && |G.Beyond(st, n)| < |G.Beyond(st, q)|
      && (n == p || S.Reaches(st, n, p) ==> S.Reaches(st, q, p))
  {
    var n := st.th[st.members[q][i]].sendTo.value;
    assert S.Edge(st, q, n) by { assert st.members[q][i] in st.members[q]; }
    G.EdgeShrinks(st, q, n);
    G.EdgeReaches(st, q, n);
    if S.Reaches(st, n, p) { G.ReachesTrans(st, q, n, p); }
  }

  lemma NoChains(st: S.State, q: S.Pid, p: S.Pid)
    requires S.WellFormed(st) && q in st.members
    requires forall k :: 0 <= k < |st.members[q]| ==> NoChain(st, st.members[q][k], p)
    ensures !S.Reaches(st, q, p)
  {
    G.ReachesUnfold(st, q, p);
    forall n | S.Edge(st, q, n) ensures n != p && !S.Reaches(st, n, p) {
      var t :| t in st.members[q] && t < |st.th| && st.th[t].IsSending() && st.th[t].sendTo == Some(n);
      assert NoChain(st, t, p);
    }
  }
}
