/** The whole state a system call leaves, written out in terms of the state it was made in. */
module IpcEffects {
  import opened SeqLists
  import opened IpcState
  import opened IpcInvariant
  import opened IpcRuns
  import opened IpcMessages
  import opened IpcViews

  /** The caller's registers after its call, unless it took a message: its pid, the destination, the result, its words. */
  function Own(s: State, a: Action, result: Result): Regs
    requires WellFormed(s) && s.th[s.cur].proc.Some? && a.Call?
  {
    Regs(s.th[s.cur].proc.value, a.dest, result.Code(), a.m1, a.m2, a.m3)
  }

  /** The running thread gave up the processor, and `q` is left to run. */
  ghost predicate Yields(s2: State, q: seq<Tid>) {
    q != [] && s2.cur == q[0] && s2.ready == q[1..] + [q[0]]
  }

  /** `r` is the first of the listed threads that fits, if one does. */
  ghost predicate Picks(th: seq<Thread>, ids: seq<Tid>, fits: Thread -> bool, r: Option<Tid>) {
    match r
    case Some(u) =>
      u in ids && u < |th| && fits(th[u]) && forall k :: 0 <= k < IndexOf(ids, u) && ids[k] < |th| ==> !fits(th[ids[k]])
    case None => forall v :: v in ids && v < |th| ==> !fits(th[v])
  }

  // ---- calls that fail ----

  /** The destination or the number is unknown, or the send has no receiver or would close a chain. */
  ghost predicate Refused(s: State, a: Action)
    requires WellFormed(s) && s.th[s.cur].proc.Some? && a.Call?
  {
    || (a.dest != 0 && a.dest !in s.members)
    || a.num !in {1, 2, 3}
    || (a.num == 1 && (a.dest == 0 || Reaches(s, a.dest, s.th[s.cur].proc.value)))
  }

  // ---- what each call leaves ----

  /** A send to `a.dest`: to the receiving thread `r`, or else into the wait list. */
  ghost predicate SendLeaves(s: State, a: Action, s2: State, r: Option<Tid>)
    requires WellFormed(s) && s.th[s.cur].proc.Some? && a.Call? && a.dest in s.members
  {
    var (t, me) := (s.cur, s.th[s.cur].proc.value);
    var caller := s.th[t].(sending := r.None?, sendTo := Some(a.dest), run := Blocked, ctx := Own(s, a, IPC_SUCCESS));
    && Picks(s.th, s.members[a.dest], (x: Thread) => x.receiving && (x.recvFrom == None || x.recvFrom == Some(me)), r)
    && s2.members == s.members
    && match r
       case Some(u) => (
         && u != t
         && s2.th == s.th[t := caller][u := s.th[u].(receiving := false, run := Ready,
                                         ctx := s.th[u].ctx.(esi := me, ebx := a.m1, ecx := a.m2, edx := a.m3))]
         && s2.wait == s.wait && s2.blocked == Remove(s.blocked, u) + [t] && Yields(s2, Remove(s.ready, t) + [u]))
       case None => (
         && s2.th == s.th[t := caller] && s2.wait == s.wait[a.dest := s.wait[a.dest] + [t]]
         && s2.blocked == s.blocked && Yields(s2, Remove(s.ready, t)))
  }

  /** A receive: the message of the waiting thread `r` is taken, or else the caller waits. */
  ghost predicate ReceiveLeaves(s: State, a: Action, s2: State, r: Option<Tid>)
    requires WellFormed(s) && s.th[s.cur].proc.Some? && a.Call?
  {
    var (t, me) := (s.cur, s.th[s.cur].proc.value);
    var caller := s.th[t].(recvFrom := if a.dest == 0 then None else Some(a.dest));
    && Picks(s.th, s.wait[me], (x: Thread) => a.dest == 0 || x.proc == Some(a.dest), r)
    && s2.members == s.members
    && match r
       case Some(u) => (
         && u != t
         && var msg := s.th[u].ctx;
         && s2.th == s.th[t := caller.(ctx := Regs(msg.esi, a.dest, IPC_SUCCESS.Code(), msg.ebx, msg.ecx, msg.edx))]
                         [u := s.th[u].(run := Ready, sending := false)]
         && s2.wait == s.wait[me := Remove(s.wait[me], u)]
         && s2.ready == s.ready + [u] && s2.blocked == s.blocked && s2.cur == t)
       case None => (
         && s2.th == s.th[t := caller.(receiving := true, run := Blocked, ctx := Own(s, a, IPC_SUCCESS))]
         && s2.wait == s.wait && s2.blocked == s.blocked + [t] && Yields(s2, Remove(s.ready, t)))
  }

  /** A notify of `a.dest`: the thread `r` that waits for the caller goes on, if there is one. */
  ghost predicate NotifyLeaves(s: State, a: Action, s2: State, r: Option<Tid>)
    requires WellFormed(s) && s.th[s.cur].proc.Some? && a.Call? && a.dest in s.members
  {
    var (t, me) := (s.cur, s.th[s.cur].proc.value);
    var caller := s.th[t].(ctx := Own(s, a, IPC_SUCCESS));
    && Picks(s.th, s.members[a.dest], (x: Thread) => x.run == Blocked && !x.receiving && x.sendTo == Some(me), r)
    && s2.members == s.members && s2.cur == t
    && match r
       case Some(u) => (
         && u != t
         && s2.th == s.th[t := caller][u := s.th[u].(run := Ready, sending := false)] && s2.ready == s.ready + [u]
         && (if s.th[u].sending then s2.wait == s.wait[me := Remove(s.wait[me], u)] && s2.blocked == s.blocked
             else s2.wait == s.wait && s2.blocked == Remove(s.blocked, u)))
       case None => (
         && s2.th == s.th[t := caller] && s2.ready == s.ready && s2.wait == s.wait && s2.blocked == s.blocked)
  }

  // ---- the state at entry ----

  /** The call with the result still to come. */
  function Called(s: State, a: Action): State
    requires WellFormed(s) && s.th[s.cur].proc.Some? && a.Call?
  {
    SetReg(s, s.cur, Own(s, a, IPC_SUCCESS).(eax := s.th[s.cur].ctx.eax))
  }

  lemma EntryIs(s: State, a: Action)
    requires CanStep(s, a) && a.Call?
    ensures CanCall(s) && WellFormed(s) && s.cur < |s.th| && s.th[s.cur].proc.Some? && Placed(s, s.cur)
    ensures AtEntry(s, a) == Called(s, a) && CanCall(AtEntry(s, a)) && Acyclic(AtEntry(s, a))
  {
    StepCaller(s, a);
    PlacedAt(s, s.cur);
    CalledIs(s, a);
    EntrySame(s, a);
    hide *;
  }

  lemma CalledIs(s: State, a: Action)
    requires WellFormed(s) && s.th[s.cur].proc.Some? && a.Call?
    ensures AtEntry(s, a) == Called(s, a)
  {
  }

  lemma RemoveBefore(s: seq<Tid>, t: Tid, u: Tid)
    requires t in s
    ensures Remove(s + [u], t) == Remove(s, t) + [u]
  {
    if s[0] == t {
      assert (s + [u])[1..] == s[1..] + [u];
    } else {
      assert t in s[1..];
      RemoveBefore(s[1..], t, u);
      assert (s + [u])[1..] == s[1..] + [u];
    }
  }

  /** There is always a thread left to run: the idle one. */
  lemma SomeLeft(s: State)
    requires CanCall(s)
    ensures Remove(s.ready, s.cur) != []
  {
    var k :| Idle(s, k);
    assert Placed(s, k);
    assert k in Remove(s.ready, s.cur);
  }

  /** What the handler makes of the state the primitive leaves. */
  lemma Returns(s: State, a: Action, e: State, s1: State, res: Result)
    requires CanStep(s, a) && a.Call? && e == AtEntry(s, a) && CanCall(e)
    requires Dispatch(e, a.num, a.dest) == (s1, res) && |s1.th| == |s.th|
    ensures Step(s, a) == s1.(th := s1.th[s.cur := s1.th[s.cur].(ctx := s1.th[s.cur].ctx.(eax := res.Code()))])
  {
    HandleUnfolds(s, a, e);
  }

  // ---- send ----

  lemma SendPicks(s: State, e: State, p: Pid, fits: Thread -> bool)
    requires CanCall(s) && p in s.members && WellFormed(e) && e.members == s.members && e.cur == s.cur && |e.th| == |s.th|
    requires Placed(s, s.cur) && e.th[s.cur] == s.th[s.cur].(ctx := e.th[s.cur].ctx)
    requires forall u :: 0 <= u < |s.th| && u != s.cur ==> e.th[u] == s.th[u]
    requires forall x: Thread :: fits(x) <==> x.receiving && (x.recvFrom == None || x.recvFrom == s.th[s.cur].proc)
    ensures Picks(s.th, s.members[p], fits, FindReceiver(Sending(e, e.cur, p), p, s.th[s.cur].proc))
  {
    var (m, from, ids) := (Sending(e, e.cur, p), s.th[s.cur].proc, s.members[p]);
    var accepts := (t: Tid) => t < |m.th| && Accepts(m.th[t], from);
    forall u | 0 <= u < |s.th| ensures accepts(u) <==> fits(s.th[u]) { assert Placed(s, u); }
    match First(ids, accepts)
    case Some(u) => FirstLeads(ids, accepts, u);
    case None =>
  }

  lemma SendDelivered(s: State, a: Action, e: State, u: Tid, s2: State)
    requires CanCall(s) && a.Call? && a.dest in s.members && e == Called(s, a) && Placed(s, s.cur)
    requires u < |s.th| && u != s.cur && s.th[u].IsReceiving()
    requires Picks(s.th, s.members[a.dest], (x: Thread) => x.receiving && (x.recvFrom == None || x.recvFrom == s.th[s.cur].proc), Some(u))
    requires var s1 := Elect(Deliver(e, e.cur, a.dest, u));
      s2 == s1.(th := s1.th[s.cur := s1.th[s.cur].(ctx := s1.th[s.cur].ctx.(eax := IPC_SUCCESS.Code()))])
    ensures SendLeaves(s, a, s2, Some(u))
  {
    RemoveBefore(s.ready, s.cur, u);
  }

  lemma SendQueued(s: State, a: Action, e: State, s2: State)
    requires CanCall(s) && a.Call? && a.dest in s.members && e == Called(s, a) && Placed(s, s.cur)
    requires Picks(s.th, s.members[a.dest], (x: Thread) => x.receiving && (x.recvFrom == None || x.recvFrom == s.th[s.cur].proc), None)
    requires var s1 := Elect(Enqueue(e, e.cur, a.dest));
      s2 == s1.(th := s1.th[s.cur := s1.th[s.cur].(ctx := s1.th[s.cur].ctx.(eax := IPC_SUCCESS.Code()))])
    ensures SendLeaves(s, a, s2, None)
  {
    SomeLeft(s);
  }

  lemma SendEffect(s: State, a: Action) returns (r: Option<Tid>)
    requires CanStep(s, a) && a.Call? && a.num == 1 && a.dest in s.members
    requires !Reaches(s, a.dest, s.th[s.cur].proc.value)
    ensures SendLeaves(s, a, Step(s, a), r)
  {
    hide Inv, Step, Acyclic, Deliver, Enqueue, Elect, SendLeaves, Send, FindReceiver, Reaches, Picks;
    EntryIs(s, a);
    var e := Called(s, a);
    SameReaches(s, e, a.dest, s.th[s.cur].proc.value);
    SendPicks(s, e, a.dest, (x: Thread) => x.receiving && (x.recvFrom == None || x.recvFrom == s.th[s.cur].proc));
    r := SendViewAt(e, a.dest);
    SendReturns(s, a, e);
    match r
    case Some(u) =>
      SendFinds(e, a.dest, u);
      SendDelivered(s, a, e, u, Step(s, a));
    case None =>
      SendWaits(e, a.dest);
      SendQueued(s, a, e, Step(s, a));
  }

  // ---- receive ----

  lemma ReceivePicks(s: State, e: State, from: Option<Pid>, fits: Thread -> bool)
    requires CanCall(s) && CanCall(e) && e.wait == s.wait && e.cur == s.cur && |e.th| == |s.th|
    requires forall u :: 0 <= u < |s.th| ==> SameButRegs(s.th[u], e.th[u])
    requires forall x: Thread :: fits(x) <==> from == None || x.proc == from
    ensures Picks(s.th, s.wait[s.th[s.cur].proc.value], fits, FindWaitingSender(e, e.th[e.cur].proc.value, from))
  {
    var ids := s.wait[s.th[s.cur].proc.value];
    if ids != [] && from != None {
      var sends := (t: Tid) => t < |e.th| && e.th[t].proc == from;
      match First(ids, sends)
      case Some(u) => FirstLeads(ids, sends, u);
      case None =>
    } else if ids != [] {
      assert IndexOf(ids, ids[0]) == 0 && ids[0] in ids;
    }
  }

  lemma ReceiveTook(s: State, a: Action, e: State, u: Tid, s2: State)
    requires CanCall(s) && a.Call? && e == Called(s, a) && Placed(s, s.cur) && (a.dest == 0 || a.dest in s.members)
    requires var me := s.th[s.cur].proc.value;
      && u < |s.th| && u != s.cur
      && Picks(s.th, s.wait[me], (x: Thread) => a.dest == 0 || x.proc == Some(a.dest), Some(u))
      && var s1 := Take(e, e.cur, Target(a.dest), me, u);
      && s2 == s1.(th := s1.th[s.cur := s1.th[s.cur].(ctx := s1.th[s.cur].ctx.(eax := IPC_SUCCESS.Code()))])
    ensures ReceiveLeaves(s, a, s2, Some(u))
  {
  }

  lemma ReceiveWaits(s: State, a: Action, e: State, s2: State)
    requires CanCall(s) && a.Call? && e == Called(s, a) && Placed(s, s.cur) && (a.dest == 0 || a.dest in s.members)
    requires var me := s.th[s.cur].proc.value;
      && Picks(s.th, s.wait[me], (x: Thread) => a.dest == 0 || x.proc == Some(a.dest), None)
      && var s1 := Elect(Await(e, e.cur, Target(a.dest)));
      && s2 == s1.(th := s1.th[s.cur := s1.th[s.cur].(ctx := s1.th[s.cur].ctx.(eax := IPC_SUCCESS.Code()))])
    ensures ReceiveLeaves(s, a, s2, None)
  {
    SomeLeft(s);
  }

  lemma ReceiveIs(e: State, from: Option<Pid>)
    requires CanCall(e)
    ensures var me := e.th[e.cur].proc.value;
      match FindWaitingSender(e, me, from)
      case Some(u) => u < |e.th| && u != e.cur && Receive(e, e.cur, from) == Take(e, e.cur, from, me, u)
      case None => Receive(e, e.cur, from) == Elect(Await(e, e.cur, from))
  {
    WaitingSenderView(e, from);
  }

  lemma ReceiveEffect(s: State, a: Action) returns (r: Option<Tid>)
    requires CanStep(s, a) && a.Call? && a.num == 2 && (a.dest == 0 || a.dest in s.members)
    ensures ReceiveLeaves(s, a, Step(s, a), r)
  {
    hide Inv, Step, Acyclic, Take, Await, Elect, ReceiveLeaves, Receive, FindWaitingSender, Picks;
    EntryIs(s, a);
    var e := Called(s, a);
    var me := e.th[e.cur].proc.value;
    ReceivePicks(s, e, Target(a.dest), (x: Thread) => a.dest == 0 || x.proc == Some(a.dest));
    r := FindWaitingSender(e, me, Target(a.dest));
    ReceiveIs(e, Target(a.dest));
    ReceiveReturns(s, a, e);
    match r
    case Some(u) => ReceiveTook(s, a, e, u, Step(s, a));
    case None => ReceiveWaits(s, a, e, Step(s, a));
  }

  // ---- notify ----

  lemma NotifyPicks(s: State, e: State, p: Pid, fits: Thread -> bool)
    requires CanCall(s) && p in s.members && WellFormed(e) && e.members == s.members && |e.th| == |s.th|
    requires forall u :: 0 <= u < |s.th| ==> SameButRegs(s.th[u], e.th[u])
    requires forall x: Thread :: fits(x) <==> x.run == Blocked && !x.receiving && x.sendTo == s.th[s.cur].proc
    ensures Picks(s.th, s.members[p], fits, FindBlockedSender(e, s.th[s.cur].proc, p))
  {
    var (from, ids) := (s.th[s.cur].proc, s.members[p]);
    var sleeps := (t: Tid) => t < |e.th| && Wakeable(e.th[t], from);
    forall u | 0 <= u < |s.th| ensures sleeps(u) <==> fits(s.th[u]) { assert Placed(s, u); }
    match First(ids, sleeps)
    case Some(u) => FirstLeads(ids, sleeps, u);
    case None =>
  }

  lemma NotifyWakes(s: State, a: Action, e: State, u: Tid, s1: State)
    requires CanCall(s) && a.Call? && a.dest in s.members && e == Called(s, a)
    requires var me := s.th[s.cur].proc.value;
      && u < |s.th| && u != s.cur
      && Picks(s.th, s.members[a.dest], (x: Thread) => x.run == Blocked && !x.receiving && x.sendTo == Some(me), Some(u))
      && s1 == if s.th[u].sending then Unlinked(e, u, me) else Wake(e, u)
    ensures NotifyLeaves(s, a, s1.(th := s1.th[s.cur := s1.th[s.cur].(ctx := s1.th[s.cur].ctx.(eax := IPC_SUCCESS.Code()))]), Some(u))
  {
    assert Placed(s, u);
  }

  /** What a notify leaves, when the thread it finds is not the head of the wait list. */
  lemma NotifyIs(e: State, p: Pid)
    requires CanCall(e) && p in e.members && !SelectsWaitHead(e, p)
    ensures var me := e.th[e.cur].proc;
      match FindBlockedSender(e, me, p)
      case Some(u) => (
        && u < |e.th| && u != e.cur
        && Notify(e, me, p) == if e.th[u].sending then Unlinked(e, u, me.value) else Wake(e, u))
      case None => Notify(e, me, p) == e
  {
    NotifyFinds(e, p);
    if SelectsQueued(e, p) { var u := NotifyUnlinks(e, p); }
  }

  lemma NotifyEffect(s: State, a: Action) returns (r: Option<Tid>)
    requires CanStep(s, a) && a.Call? && a.num == 3 && a.dest in s.members
    ensures NotifyLeaves(s, a, Step(s, a), r)
  {
    hide Inv, Step, Acyclic, Wake, Unlinked, Notify, FindBlockedSender, Picks, SelectsWaitHead;
    EntryIs(s, a);
    var e := Called(s, a);
    EntryReady(s, a, e, a.dest);
    NotifyPicks(s, e, a.dest, (x: Thread) => x.run == Blocked && !x.receiving && x.sendTo == s.th[s.cur].proc);
    r := FindBlockedSender(e, e.th[e.cur].proc, a.dest);
    NotifyIs(e, a.dest);
    NotifyReturns(s, a, e);
    if r.Some? { NotifyWakes(s, a, e, r.value, Notify(e, e.th[e.cur].proc, a.dest)); }
  }

  // ---- refusal, and all calls together ----

  /** A call that fails changes nothing but the caller's registers. */
  lemma RefusedEffect(s: State, a: Action)
    requires CanStep(s, a) && a.Call? && Refused(s, a)
    ensures Step(s, a) == SetReg(s, s.cur, Own(s, a, IPC_FAILURE))
  {
    EntryIs(s, a);
    var e := Called(s, a);
    if a.dest in s.members { SameReaches(e, s, a.dest, s.th[s.cur].proc.value); }
    HandleUnfolds(s, a, e);
    RefusedIs(e, a.num, a.dest);
  }

  lemma RefusedIs(e: State, num: Word, dest: Word)
    requires CanCall(e) && (num == SYSCALL_NOTIFY ==> dest != IPC_ANY)
    requires (dest != 0 && dest !in e.members) || num !in {1, 2, 3} || (num == 1 && (dest == 0 || Reaches(e, dest, e.th[e.cur].proc.value)))
    ensures Dispatch(e, num, dest) == (e, IPC_FAILURE)
  {
    hide Reaches;
  }

  /** The whole of what a system call does. */
  ghost predicate CallLeaves(s: State, a: Action, s2: State, r: Option<Tid>)
    requires WellFormed(s) && s.th[s.cur].proc.Some? && a.Call?
  {
    if Refused(s, a) then s2 == SetReg(s, s.cur, Own(s, a, IPC_FAILURE))
    else if a.num == 1 then SendLeaves(s, a, s2, r)
    else if a.num == 2 then ReceiveLeaves(s, a, s2, r)
    else a.dest in s.members && NotifyLeaves(s, a, s2, r)
  }

  lemma CallEffect(s: State, a: Action) returns (r: Option<Tid>)
    requires CanStep(s, a) && a.Call?
    ensures WellFormed(s) && s.th[s.cur].proc.Some? && CallLeaves(s, a, Step(s, a), r)
  {
    hide Inv, Step, Acyclic, Reaches, SendLeaves, ReceiveLeaves, NotifyLeaves;
    EntryIs(s, a);
    if Refused(s, a) {
      RefusedEffect(s, a);
      r := None;
    } else if a.num == 1 {
      r := SendEffect(s, a);
    } else if a.num == 2 {
      r := ReceiveEffect(s, a);
    } else {
      r := NotifyEffect(s, a);
    }
  }

  /** A clock interrupt moves the processor on, and nothing else. */
  lemma TickEffect(s: State)
    requires Inv(s)
    ensures Yields(Step(s, Tick), s.ready)
    ensures Step(s, Tick) == s.(ready := Step(s, Tick).ready, cur := Step(s, Tick).cur)
  {
  }

  // ---- results over runs ----

  /** What a call of `s.cur` with this outcome leaves to thread `t`. */
  ghost predicate Left(s: State, s2: State, res: Result, t: Tid)
    requires s.cur < |s.th| && t < |s.th|
  {
    && t < |s2.th|
    && s2.th[t].ctx.eax == (if t == s.cur then res.Code() else s.th[t].ctx.eax)
    && (t != s.cur && !s.th[t].receiving ==> s2.th[t].ctx == s.th[t].ctx && !s2.th[t].receiving)
  }

  lemma ReceiverWaits(s: State, a: Action, s2: State, u: Tid)
    requires WellFormed(s) && s.th[s.cur].proc.Some? && a.Call? && a.dest in s.members && SendLeaves(s, a, s2, Some(u))
    ensures u < |s.th| && s.th[u].receiving
  {
  }

  lemma SendLeft(s: State, a: Action, s2: State, r: Option<Tid>, t: Tid)
    requires WellFormed(s) && s.th[s.cur].proc.Some? && a.Call? && a.dest in s.members && SendLeaves(s, a, s2, r)
    requires t < |s.th|
    ensures Left(s, s2, IPC_SUCCESS, t)
  {
    if r.Some? { ReceiverWaits(s, a, s2, r.value); }
    hide WellFormed, Picks, Yields;
  }

  lemma SenderIn(s: State, a: Action, s2: State, u: Tid)
    requires WellFormed(s) && s.th[s.cur].proc.Some? && a.Call? && ReceiveLeaves(s, a, s2, Some(u))
    ensures u < |s.th|
  {
  }

  lemma ReceiveLeft(s: State, a: Action, s2: State, r: Option<Tid>, t: Tid)
    requires WellFormed(s) && s.th[s.cur].proc.Some? && a.Call? && ReceiveLeaves(s, a, s2, r)
    requires t < |s.th|
    ensures Left(s, s2, IPC_SUCCESS, t)
  {
    if r.Some? { SenderIn(s, a, s2, r.value); }
    hide WellFormed, Picks, Yields;
  }

  lemma WokenIn(s: State, a: Action, s2: State, u: Tid)
    requires WellFormed(s) && s.th[s.cur].proc.Some? && a.Call? && a.dest in s.members && NotifyLeaves(s, a, s2, Some(u))
    ensures u < |s.th|
  {
  }

  lemma NotifyLeft(s: State, a: Action, s2: State, r: Option<Tid>, t: Tid)
    requires WellFormed(s) && s.th[s.cur].proc.Some? && a.Call? && a.dest in s.members && NotifyLeaves(s, a, s2, r)
    requires t < |s.th|
    ensures Left(s, s2, IPC_SUCCESS, t)
  {
    if r.Some? { WokenIn(s, a, s2, r.value); }
    hide WellFormed, Picks, Yields;
  }

  lemma CallLeft(s: State, a: Action, t: Tid)
    requires CanStep(s, a) && a.Call? && t < |s.th|
    ensures WellFormed(s) && s.th[s.cur].proc.Some? && Left(s, Step(s, a), Outcome(s, a), t)
  {
    hide Inv, Step, Acyclic, Reaches, WellFormed, SendLeaves, ReceiveLeaves, NotifyLeaves, Left;
    var r := CallEffect(s, a);
    if Refused(s, a) {
      RefusedLeft(s, a, t);
    } else if a.num == 1 {
      SendLeft(s, a, Step(s, a), r, t);
    } else if a.num == 2 {
      ReceiveLeft(s, a, Step(s, a), r, t);
    } else {
      NotifyLeft(s, a, Step(s, a), r, t);
    }
  }

  lemma RefusedLeft(s: State, a: Action, t: Tid)
    requires WellFormed(s) && s.th[s.cur].proc.Some? && a.Call? && t < |s.th|
    ensures Left(s, SetReg(s, s.cur, Own(s, a, IPC_FAILURE)), IPC_FAILURE, t)
  {
  }

  /** The result of a call. */
  ghost function Outcome(s: State, a: Action): Result
    requires WellFormed(s) && s.th[s.cur].proc.Some? && a.Call?
  {
    if Refused(s, a) then IPC_FAILURE else IPC_SUCCESS
  }

  /** A step gives the caller its result, and leaves that of every other thread. */
  lemma StepResult(s: State, a: Action, t: Tid)
    requires CanStep(s, a) && t < |s.th|
    ensures t < |Step(s, a).th|
    ensures Step(s, a).th[t].ctx.eax == if a.Call? && t == s.cur then Outcome(s, a).Code() else s.th[t].ctx.eax
  {
    if a.Call? {
      CallLeft(s, a, t);
      hide Inv, Step, Acyclic, Reaches, Outcome;
    }
  }

  /**
    What a thread finds in EAX whenever it runs again is the result of its own last call,
    whatever other threads did meanwhile.
   */
  lemma {:induction false} ResultStays(trace: seq<State>, acts: seq<Action>, i: nat, j: nat, t: Tid)
    requires IsRun(trace, acts) && Safe(trace[0]) && i < j < |trace|
    requires acts[i].Call? && trace[i].cur == t
    requires forall k :: i < k < j && trace[k].cur == t ==> acts[k].Tick?
    ensures CanStep(trace[i], acts[i]) && t < |trace[i].th| && t < |trace[j].th|
    ensures trace[j].th[t].ctx.eax == Outcome(trace[i], acts[i]).Code()
  {
    hide Safe, Enabled, Step, Outcome;
    RunSafe(trace, acts, j - 1);
    if j == i + 1 {
      StepCaller(trace[i], acts[i]);
    } else {
      ResultStays(trace, acts, i, j - 1, t);
    }
    StepResult(trace[j - 1], acts[j - 1], t);
  }

  /** No step touches the registers of a thread that neither runs nor waits for a message. */
  lemma StepQuiet(s: State, a: Action, t: Tid)
    requires CanStep(s, a) && t < |s.th| && !s.th[t].receiving && (a.Call? ==> t != s.cur)
    ensures t < |Step(s, a).th| && Step(s, a).th[t].ctx == s.th[t].ctx && !Step(s, a).th[t].receiving
  {
    if a.Call? {
      CallLeft(s, a, t);
      hide Inv, Step, Acyclic, Reaches, Outcome;
    }
  }

  /** So a thread that was given a message, or whose call ended, finds its registers as they were left when it runs. */
  lemma {:induction false} RegistersStay(trace: seq<State>, acts: seq<Action>, i: nat, j: nat, t: Tid)
    requires IsRun(trace, acts) && Safe(trace[0]) && i <= j < |trace| && t < |trace[i].th| && !trace[i].th[t].receiving
    requires forall k :: i <= k < j && trace[k].cur == t ==> acts[k].Tick?
    ensures t < |trace[j].th| && trace[j].th[t].ctx == trace[i].th[t].ctx && !trace[j].th[t].receiving
  {
    if i < j {
      hide Safe, Enabled, Step;
      RegistersStay(trace, acts, i, j - 1, t);
      RunSafe(trace, acts, j - 1);
      StepQuiet(trace[j - 1], acts[j - 1], t);
    }
  }
}
