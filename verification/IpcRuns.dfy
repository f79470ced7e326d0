/** Single kernel entries and whole runs of them, by whatever programs. */
module IpcRuns {
  import opened SeqLists
  import opened IpcState
  import opened IpcInvariant
  import opened IpcGraph

  /** What the machine does next: a clock interrupt, or a system call of the running thread. */
  datatype Action = Tick | Call(num: Word, dest: Word, m1: Word, m2: Word, m3: Word)

  /** The thread `u` a notify selects is still waiting for its message to be received. */
  ghost predicate SelectsQueued(s: State, p: Pid)
    requires WellFormed(s) && p in s.members
  {
    var u := FindBlockedSender(s, s.th[s.cur].proc, p);
    u.Some? && u.value < |s.th| && s.th[u.value].sending
  }

  /** The selected thread is what the wait list of the notifying process points to. */
  ghost predicate SelectsWaitHead(s: State, p: Pid)
    requires WellFormed(s) && p in s.members
  {
    var u := FindBlockedSender(s, s.th[s.cur].proc, p);
    && u.Some? && s.th[s.cur].proc.Some?
    && var w := s.wait[s.th[s.cur].proc.value]; w != [] && w[0] == u.value
  }

  /** A send to the caller's own process that no thread of it is ready to receive. */
  ghost predicate SelfQueued(s: State, p: Pid)
    requires WellFormed(s) && p in s.members
  {
    s.th[s.cur].proc == Some(p) && FindReceiver(Sending(s, s.cur, p), p, Some(p)).None?
  }

  ghost predicate Enabled(s: State, a: Action)
    requires WellFormed(s)
  {
    a.Call? ==>
      && s.th[s.cur].proc.Some?
      && (a.num == SYSCALL_NOTIFY ==> a.dest != IPC_ANY)
      && (a.dest in s.members ==>
            && (a.num == SYSCALL_NOTIFY ==> !SelectsWaitHead(s, a.dest))
            && (a.num == SYSCALL_SEND ==> !SelfQueued(s, a.dest)))
  }

  /** The program of the running thread loads its registers for the call. */
  function Loaded(s: State, a: Action): State
    requires WellFormed(s) && a.Call?
  {
    SetReg(s, s.cur, Regs(a.num, a.dest, s.th[s.cur].ctx.eax, a.m1, a.m2, a.m3))
  }

  ghost function Step(s: State, a: Action): State
    requires WellFormed(s) && Enabled(s, a)
  {
    if a.Tick? then Elect(s) else Handle(Loaded(s, a))
  }

  lemma SetRegKeeps(s: State, t: Tid, regs: Regs)
    requires Core(s) && t < |s.th|
    ensures Core(SetReg(s, t, regs))
  {
    var s2 := SetReg(s, t, regs);
    assert WellFormed(s2);
    forall u | 0 <= u < |s.th| ensures Placed(s2, u) { assert Placed(s, u); }
    forall q, v, u | q in s2.wait && v in s2.wait[q] && 0 <= u < |s.th| && s2.th[u].proc == Some(q)
      ensures !Accepts(s2.th[u], s2.th[v].proc)
    {
      assert v in s.wait[q] && !Accepts(s.th[u], s.th[v].proc);
    }
    SameProcs(s, s2);
  }

  /** The state before the election of an accepted send. */
  lemma SendOutcome(s: State, q: Pid)
    requires CanCall(s) && q in s.members && !Reaches(s, q, s.th[s.cur].proc.value)
    ensures match FindReceiver(Sending(s, s.cur, q), q, s.th[s.cur].proc)
            case Some(r) => r < |s.th| && r != s.cur && Core(Deliver(s, s.cur, q, r))
            case None => Core(Enqueue(s, s.cur, q))
  {
    var t := s.cur;
    assert Placed(s, t);
    match FindReceiver(Sending(s, t, q), q, s.th[t].proc)
    case Some(r) =>
      assert r in s.members[q] && r != t;
      DeliverKeeps(s, t, q, r);
    case None =>
      forall u | u in s.members[q] && u != t ensures !Accepts(s.th[u], s.th[t].proc) {
        assert Sending(s, t, q).th[u] == s.th[u];
      }
      EnqueueKeeps(s, t, q);
  }

  lemma SendKeeps(s: State, q: Pid)
    requires CanCall(s) && q in s.members
    ensures Inv(Send(s, s.cur, Some(q)).0)
  {
    if !Reaches(s, q, s.th[s.cur].proc.value) {
      SendOutcome(s, q);
      match FindReceiver(Sending(s, s.cur, q), q, s.th[s.cur].proc)
      case Some(r) => ElectKeeps(Deliver(s, s.cur, q, r));
      case None => ElectKeeps(Enqueue(s, s.cur, q));
    }
  }

  /** The state before the election of a receive that finds nobody, or after one that does. */
  lemma ReceiveOutcome(s: State, from: Option<Pid>)
    requires CanCall(s)
    ensures match FindWaitingSender(s, s.th[s.cur].proc.value, from)
            case Some(a) => a < |s.th| && a != s.cur && Core(Take(s, s.cur, from, s.th[s.cur].proc.value, a))
            case None => Core(Await(s, s.cur, from))
  {
    assert Placed(s, s.cur);
    match FindWaitingSender(s, s.th[s.cur].proc.value, from)
    case Some(a) =>
      TakeShape(s, s.cur, from, a);
      TakeKeeps(s, s.cur, from, a);
    case None =>
      AwaitKeeps(s, s.cur, from);
  }

  lemma ReceiveKeeps(s: State, from: Option<Pid>)
    requires CanCall(s)
    ensures Inv(Receive(s, s.cur, from))
  {
    ReceiveOutcome(s, from);
    assert Placed(s, s.cur);
    if FindWaitingSender(s, s.th[s.cur].proc.value, from).None? {
      ElectKeeps(Await(s, s.cur, from));
    }
  }

  /** What a notify leaves when it wakes `u` in the middle of the wait list of `q`. */
  function Unlinked(s: State, u: Tid, q: Pid): State
    requires u < |s.th| && q in s.wait
  {
    Wake(s, u).(wait := s.wait[q := Remove(s.wait[q], u)])
  }

  lemma UnlinkFormed(s: State, u: Tid, q: Pid)
    requires WellFormed(s) && q in s.wait && u < |s.th|
    ensures WellFormed(Unlinked(s, u, q))
  {
    StillFormed(s, Unlinked(s, u, q));
  }

  lemma UnlinkLists(s: State, u: Tid, q: Pid)
    requires WellFormed(s) && NoRepeats(s) && q in s.wait && u in s.wait[q] && u < |s.th| && Placed(s, u)
    ensures NoRepeats(Unlinked(s, u, q)) && u !in Unlinked(s, u, q).wait[q]
    ensures Unlinked(s, u, q).blocked == s.blocked && u !in s.ready && u !in s.blocked
    ensures s.th[u].sendTo == Some(q) && !s.th[u].receiving && s.th[u].run == Blocked
  {
    hide WellFormed;
    RemoveNoDup(s.wait[q], u);
  }

  lemma UnlinkPlaces(s: State, u: Tid, q: Pid, v: Tid)
    requires WellFormed(s) && NoRepeats(s) && q in s.wait && u in s.wait[q] && u < |s.th| && Placed(s, u)
    requires v < |s.th| && Placed(s, v) && WellFormed(Unlinked(s, u, q))
    ensures Placed(Unlinked(s, u, q), v)
  {
    hide WellFormed, NoRepeats;
    UnlinkLists(s, u, q);
  }

  lemma UnlinkKeeps(s: State, u: Tid, q: Pid)
    requires Core(s) && q in s.wait && u in s.wait[q]
    ensures u < |s.th| && Core(Unlinked(s, u, q))
  {
    hide Placed, NoRepeats, Membership, NoMissedRendezvous;
    PlacedAt(s, u);
    UnlinkFormed(s, u, q);
    UnlinkLists(s, u, q);
    var s2 := Unlinked(s, u, q);
    forall v | 0 <= v < |s.th| ensures Placed(s2, v) { UnlinkPlaces(s, u, q, v); }
    LessToMiss(s, s2);
    SameProcs(s, s2);
  }

  /**
    Notify keeps the queues consistent exactly when the thread it selects is not the
    head of the caller's own wait list.
   */
  lemma NotifyExact(s: State, p: Pid)
    requires CanCall(s) && p in s.members
    ensures Inv(Notify(s, s.th[s.cur].proc, p)) <==> !SelectsWaitHead(s, p)
  {
    var me := s.th[s.cur].proc.value;
    match FindBlockedSender(s, Some(me), p)
    case None =>
    case Some(u) =>
      assert Placed(s, u) && Placed(s, s.cur);
      if u in s.blocked {
        WakeKeeps(s, u);
        if u in s.wait[me] { assert false; }
      } else {
        assert u in s.wait[me];
        var s2 := Notify(s, Some(me), p);
        if s.wait[me][0] == u {
          if WellFormed(s2) {
            assert s2.th[u].run == Ready && u in s2.wait[me];
            assert !Placed(s2, u);
          }
        } else {
          UnlinkKeeps(s, u, me);
        }
      }
  }

  lemma DispatchSize(e: State, num: Word, dest: Word)
    requires CanCall(e) && (num == SYSCALL_NOTIFY ==> dest != IPC_ANY)
    ensures |Dispatch(e, num, dest).0.th| == |e.th|
  {
    hide Reaches, AllPlaced, NoRepeats, Membership, NoMissedRendezvous;
  }

  lemma HandleKeeps(s: State)
    requires CanCall(s)
    requires s.th[s.cur].ctx.esi == SYSCALL_NOTIFY && s.th[s.cur].ctx.edi in s.members
             ==> !SelectsWaitHead(Entered(s), s.th[s.cur].ctx.edi)
    requires s.th[s.cur].ctx.esi == SYSCALL_NOTIFY ==> s.th[s.cur].ctx.edi != IPC_ANY
    ensures Inv(Handle(s))
  {
    var regs := s.th[s.cur].ctx;
    var e := Entered(s);
    SetRegKeeps(s, s.cur, e.th[s.cur].ctx);
    var (s1, res) := Dispatch(e, regs.esi, regs.edi);
    if regs.edi == IPC_ANY || regs.edi in e.members {
      if regs.esi == SYSCALL_SEND && regs.edi != IPC_ANY {
        SendKeeps(e, regs.edi);
      } else if regs.esi == SYSCALL_RECEIVE {
        ReceiveKeeps(e, Target(regs.edi));
      } else if regs.esi == SYSCALL_NOTIFY {
        NotifyExact(e, regs.edi);
      }
    }
    DispatchSize(e, regs.esi, regs.edi);
    assert Inv(s1);
    SetRegKeeps(s1, s.cur, s1.th[s.cur].ctx.(eax := res.Code()));
  }

  // ---- the graph of senders ----

  lemma HandleAcyclic(s: State)
    requires CanCall(s) && Acyclic(s)
    requires s.th[s.cur].ctx.esi == SYSCALL_NOTIFY ==> s.th[s.cur].ctx.edi != IPC_ANY
    requires s.th[s.cur].ctx.edi in s.members ==>
      && (s.th[s.cur].ctx.esi == SYSCALL_NOTIFY ==> !SelectsWaitHead(Entered(s), s.th[s.cur].ctx.edi))
      && (s.th[s.cur].ctx.esi == SYSCALL_SEND ==> !SelfQueued(Entered(s), s.th[s.cur].ctx.edi))
    ensures Acyclic(Handle(s))
  {
    var regs := s.th[s.cur].ctx;
    var e := Entered(s);
    SetRegKeeps(s, s.cur, e.th[s.cur].ctx);
    SameEdges(s, s.cur, e.th[s.cur].ctx);
    var (s1, res) := Dispatch(e, regs.esi, regs.edi);
    if regs.edi == IPC_ANY || regs.edi in e.members {
      if regs.esi == SYSCALL_SEND && regs.edi != IPC_ANY {
        SendAcyclic(e, regs.edi);
      } else if regs.esi == SYSCALL_RECEIVE {
        ReceiveAcyclic(e, Target(regs.edi));
      } else if regs.esi == SYSCALL_NOTIFY {
        NotifyAcyclic(e, regs.edi);
      }
    }
    DispatchSize(e, regs.esi, regs.edi);
    assert Acyclic(s1);
    SameEdges(s1, s.cur, s1.th[s.cur].ctx.(eax := res.Code()));
  }

  /** Threads that did not start to send make no new edge. */
  lemma NoNewSenders(s: State, s2: State)
    requires Acyclic(s) && s2.members == s.members && |s2.th| == |s.th|
    requires forall u :: 0 <= u < |s.th| && s2.th[u].IsSending() ==> s.th[u].IsSending() && s2.th[u].sendTo == s.th[u].sendTo
    ensures Acyclic(s2)
  {
    FewerEdgesKeep(s, s2);
  }

  lemma SameEdges(s: State, t: Tid, regs: Regs)
    requires t < |s.th| && Acyclic(s)
    ensures Acyclic(SetReg(s, t, regs))
  {
    NoNewSenders(s, SetReg(s, t, regs));
  }

  /**
    A send keeps the graph of senders acyclic exactly when it is not queued on the
    wait list of the caller's own process: the search for a chain never sees that case.
   */
  lemma SendAcyclic(s: State, q: Pid)
    requires CanCall(s) && Acyclic(s) && q in s.members
    ensures Acyclic(Send(s, s.cur, Some(q)).0) <==> !SelfQueued(s, q)
  {
    var t := s.cur;
    var me := s.th[t].proc.value;
    assert Placed(s, t);
    if !Reaches(s, q, me) {
      match FindReceiver(Sending(s, t, q), q, s.th[t].proc)
      case Some(r) =>
        assert r != t && Placed(s, r);
        DeliverAcyclic(s, t, q, r);
      case None => EnqueueAcyclic(s, Elect(Enqueue(s, t, q)), me, q);
    }
  }

  lemma DeliverAcyclic(s: State, t: Tid, q: Pid, r: Tid)
    requires WellFormed(s) && Acyclic(s) && t < |s.th| && r < |s.th| && r != t && !s.th[t].sending && !s.th[r].sending
    ensures Acyclic(Elect(Deliver(s, t, q, r)))
  {
    hide Acyclic;
    NoNewSenders(s, Elect(Deliver(s, t, q, r)));
  }

  lemma EnqueueAcyclic(s: State, s2: State, me: Pid, q: Pid)
    requires CanCall(s) && Acyclic(s) && q in s.members && s.th[s.cur].proc == Some(me) && s2 == Elect(Enqueue(s, s.cur, q))
    ensures Acyclic(s2) <==> me != q && !Reaches(s, q, me)
  {
    hide Reaches, Acyclic;
    assert Placed(s, s.cur);
    assert s.cur in s.members[me];
    forall p, n ensures Edge(s2, p, n) <==> Edge(s, p, n) || (p == me && n == q) {
      EnqueueEdge(s, s2, s.cur, me, q, p, n);
    }
    QueuedSendAcyclic(s, s2, me, q);
  }

  lemma EnqueueEdge(s: State, s2: State, t: Tid, me: Pid, q: Pid, p: Pid, n: Pid)
    requires Inv(s) && t < |s.th| && me in s.members && t in s.members[me] && s.th[t].proc == Some(me)
    requires s2.members == s.members && |s2.th| == |s.th| && !s.th[t].sending
    requires s2.th[t].IsSending() && s2.th[t].sendTo == Some(q)
    requires forall u :: 0 <= u < |s.th| && u != t ==> s2.th[u] == s.th[u]
    ensures Edge(s2, p, n) <==> Edge(s, p, n) || (p == me && n == q)
  {
    if Edge(s, p, n) {
      var u :| u in s.members[p] && u < |s.th| && s.th[u].IsSending() && s.th[u].sendTo == Some(n);
      assert u in s2.members[p] && s2.th[u].IsSending();
    }
    if Edge(s2, p, n) {
      var u :| u in s2.members[p] && u < |s2.th| && s2.th[u].IsSending() && s2.th[u].sendTo == Some(n);
      assert u in s.members[p];
    }
    if p == me && n == q {
      assert t in s2.members[p] && s2.th[t].IsSending();
    }
  }

  lemma ReceiveAcyclic(s: State, from: Option<Pid>)
    requires CanCall(s) && Acyclic(s)
    ensures Acyclic(Receive(s, s.cur, from))
  {
    assert Placed(s, s.cur);
    NoNewSenders(s, Receive(s, s.cur, from));
  }

  lemma NotifyAcyclic(s: State, p: Pid)
    requires CanCall(s) && Acyclic(s) && p in s.members
    ensures Acyclic(Notify(s, s.th[s.cur].proc, p))
  {
    NoNewSenders(s, Notify(s, s.th[s.cur].proc, p));
  }

  // ---- whole runs ----

  ghost predicate Safe(s: State) {
    Inv(s) && Acyclic(s)
  }

  lemma StepSafe(s: State, a: Action)
    requires Safe(s) && Enabled(s, a)
    ensures Safe(Step(s, a))
  {
    if a.Tick? {
      ElectKeeps(s);
      NoNewSenders(s, Elect(s));
    } else {
      var l := Loaded(s, a);
      SetRegKeeps(s, s.cur, l.th[s.cur].ctx);
      SameEdges(s, s.cur, l.th[s.cur].ctx);
      if a.dest in s.members {
        SameSelection(s, l, Entered(l), a.dest);
      }
      HandleKeeps(l);
      HandleAcyclic(l);
    }
  }

  /** Only a queued thread is at the head of a wait list. */
  lemma HeadIsQueued(s: State, p: Pid)
    requires Inv(s) && p in s.members
    ensures SelectsWaitHead(s, p) ==> SelectsQueued(s, p)
  {
    match FindBlockedSender(s, s.th[s.cur].proc, p)
    case None =>
    case Some(u) => assert Placed(s, u);
  }

  /** Loading registers does not change what a notify or a send finds. */
  lemma SameSelection(s: State, l: State, e: State, p: Pid)
    requires CanCall(s) && p in s.members && WellFormed(l) && WellFormed(e)
    requires e.cur == s.cur && e.members == s.members && e.wait == s.wait && |e.th| == |s.th|
    requires forall u :: 0 <= u < |s.th| ==> e.th[u] == s.th[u].(ctx := e.th[u].ctx)
    ensures SelectsWaitHead(e, p) <==> SelectsWaitHead(s, p)
    ensures SelectsQueued(e, p) <==> SelectsQueued(s, p)
    ensures SelfQueued(e, p) <==> SelfQueued(s, p)
  {
    SameBlockedSender(s, e, s.members[p], s.th[s.cur].proc);
    SameReceiver(Sending(s, s.cur, p), Sending(e, e.cur, p), s.members[p], Some(p));
  }

  lemma SameBlockedSender(s: State, e: State, ids: seq<Tid>, notifier: Option<Pid>)
    requires |e.th| == |s.th|
    requires forall u :: 0 <= u < |s.th| ==> e.th[u] == s.th[u].(ctx := e.th[u].ctx)
    ensures First(ids, (t: Tid) => t < |e.th| && Wakeable(e.th[t], notifier))
         == First(ids, (t: Tid) => t < |s.th| && Wakeable(s.th[t], notifier))
  {
    FirstSame(ids, (t: Tid) => t < |e.th| && Wakeable(e.th[t], notifier),
              (t: Tid) => t < |s.th| && Wakeable(s.th[t], notifier));
  }

  lemma SameReceiver(s: State, e: State, ids: seq<Tid>, from: Option<Pid>)
    requires |e.th| == |s.th|
    requires forall u :: 0 <= u < |s.th| ==> e.th[u] == s.th[u].(ctx := e.th[u].ctx)
    ensures First(ids, (t: Tid) => t < |e.th| && Accepts(e.th[t], from))
         == First(ids, (t: Tid) => t < |s.th| && Accepts(s.th[t], from))
  {
    FirstSame(ids, (t: Tid) => t < |e.th| && Accepts(e.th[t], from),
              (t: Tid) => t < |s.th| && Accepts(s.th[t], from));
  }

  /** A run: every action is one the programs may take in the state it starts from. */
  ghost predicate IsRun(trace: seq<State>, acts: seq<Action>) {
    && |trace| == |acts| + 1
    && forall i :: 0 <= i < |acts| ==>
         WellFormed(trace[i]) && Enabled(trace[i], acts[i]) && trace[i + 1] == Step(trace[i], acts[i])
  }

  /** The same without asking that states are well formed, which only keeps the step defined. */
  ghost predicate Follows(trace: seq<State>, acts: seq<Action>) {
    && |trace| == |acts| + 1
    && forall i :: 0 <= i < |acts| ==> Next(trace[i], acts[i], trace[i + 1])
  }

  ghost predicate Next(s: State, a: Action, s2: State) {
    WellFormed(s) ==> Enabled(s, a) && s2 == Step(s, a)
  }

  /** So nothing is lost by asking for it. */
  lemma FollowsIsRun(trace: seq<State>, acts: seq<Action>)
    requires Follows(trace, acts) && Safe(trace[0])
    ensures IsRun(trace, acts)
  {
    hide Safe, Enabled, Step;
    forall i | 0 <= i < |acts|
      ensures WellFormed(trace[i]) && Enabled(trace[i], acts[i]) && trace[i + 1] == Step(trace[i], acts[i])
    {
      FollowsSafe(trace, acts, i);
      assert Next(trace[i], acts[i], trace[i + 1]);
    }
  }

  lemma {:induction false} FollowsSafe(trace: seq<State>, acts: seq<Action>, i: nat)
    requires Follows(trace, acts) && Safe(trace[0]) && i < |trace|
    ensures Safe(trace[i]) && WellFormed(trace[i])
  {
    if i > 0 {
      FollowsSafe(trace, acts, i - 1);
      assert Next(trace[i - 1], acts[i - 1], trace[i]);
      StepSafe(trace[i - 1], acts[i - 1]);
    }
  }

  /** All threads ready and nothing sent: what thread_create and proc_create leave. */
  ghost predicate Initial(s: State) {
    && WellFormed(s) && NoDup(s.ready) && s.cur in s.ready && s.blocked == []
    && (forall t :: 0 <= t < |s.th| ==> t in s.ready)
    && (forall t {:trigger s.th[t]} :: 0 <= t < |s.th| ==> s.th[t].run == Ready && !s.th[t].sending && !s.th[t].receiving)
    && (forall q :: q in s.wait ==> s.wait[q] == [])
    && Membership(s) && (exists k :: Idle(s, k))
  }

  const STILL := Regs(0, 0, 0, 0, 0, 0)

  /** The smallest state with two processes. */
  lemma SmallInitial(s: State)
    requires s.ready == [0, 1, 2] && s.blocked == [] && s.cur == 0 && |s.th| == 3
    requires s.members == map[1 := [1], 2 := [2]] && s.wait == map[1 := [], 2 := []]
    requires s.th[0].proc == None && s.th[1].proc == Some(1) && s.th[2].proc == Some(2)
    requires forall t {:trigger s.th[t]} :: 0 <= t < 3 ==> s.th[t].run == Ready && !s.th[t].sending && !s.th[t].receiving
    requires forall t {:trigger s.th[t]} :: 0 <= t < 3 ==> s.th[t].sendTo == None
    ensures Initial(s)
  {
    assert WellFormed(s);
    assert Idle(s, 0);
    forall t | 0 <= t < 3 ensures t in s.ready { assert s.ready[t] == t; }
  }

  lemma InitialSafe(s: State)
    requires Initial(s)
    ensures Safe(s)
  {
    forall p ensures !Reaches(s, p, p) { ReachesUnfold(s, p, p); }
  }

  /** In every reachable state the invariant holds and no chain of sends closes. */
  lemma {:induction false} RunSafe(trace: seq<State>, acts: seq<Action>, i: nat)
    requires IsRun(trace, acts) && Safe(trace[0]) && i < |trace|
    ensures Safe(trace[i])
  {
    if i > 0 {
      RunSafe(trace, acts, i - 1);
      StepSafe(trace[i - 1], acts[i - 1]);
    }
  }

  datatype Place = InReady | InBlocked | InWaitList(q: Pid)

  ghost predicate At(s: State, t: Tid, place: Place) {
    match place
    case InReady => t in s.ready
    case InBlocked => t in s.blocked
    case InWaitList(q) => q in s.wait && t in s.wait[q]
  }

  /** In every reachable state each thread is in exactly one list, the one its fields say, and there once. */
  lemma Partition(trace: seq<State>, acts: seq<Action>, i: nat, t: Tid)
    requires IsRun(trace, acts) && Initial(trace[0]) && i < |trace| && t < |trace[i].th|
    ensures exists place :: At(trace[i], t, place) && forall other :: At(trace[i], t, other) ==> other == place
    ensures NoRepeats(trace[i]) && trace[i].cur in trace[i].ready
    ensures var (s, th) := (trace[i], trace[i].th[t]);
      && (t in s.ready <==> th.run == Ready)
      && (t in s.ready ==> !th.sending && !th.receiving)
      && (t in s.blocked <==> th.run == Blocked && !th.sending)
      && forall q :: q in s.wait ==> (t in s.wait[q] <==> th.run == Blocked && th.IsSending() && th.sendTo == Some(q))
  {
    InitialSafe(trace[0]);
    RunSafe(trace, acts, i);
    var s := trace[i];
    assert Placed(s, t);
    var th := s.th[t];
    var place := if th.run == Ready then InReady
                 else if !th.sending then InBlocked
                 else InWaitList(th.sendTo.value);
    assert At(s, t, place);
  }

  /**
    In every reachable state nobody waits to send to a process one of whose threads would
    take that message.
   */
  lemma NeverMissed(trace: seq<State>, acts: seq<Action>, i: nat, t: Tid, u: Tid)
    requires IsRun(trace, acts) && Initial(trace[0]) && i < |trace| && t < |trace[i].th| && u < |trace[i].th|
    ensures var (sender, receiver) := (trace[i].th[t], trace[i].th[u]);
      sender.IsSending() && receiver.proc.Some? && sender.sendTo == receiver.proc ==> !Accepts(receiver, sender.proc)
  {
    InitialSafe(trace[0]);
    RunSafe(trace, acts, i);
    var s := trace[i];
    assert Placed(s, t);
    if s.th[t].IsSending() && s.th[u].proc.Some? && s.th[t].sendTo == s.th[u].proc {
      assert t in s.wait[s.th[u].proc.value];
    }
  }
}
