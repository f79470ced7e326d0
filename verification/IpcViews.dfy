/** What one system call does to the threads, as a program sees it. */
module IpcViews {
  import opened SeqLists
  import opened IpcState
  import opened IpcInvariant
  import opened IpcRuns
  import opened IpcMessages

  /** `t2` is `t` up to its registers. */
  ghost predicate SameButRegs(t: Thread, t2: Thread) {
    t2 == t.(ctx := t2.ctx)
  }

  /** All threads but `t` and `u` are as before. */
  ghost predicate OnlyChanged(s: State, s2: State, t: Tid, u: Tid) {
    && s2.members == s.members && |s2.th| == |s.th|
    && forall v :: 0 <= v < |s.th| && v != t && v != u ==> s2.th[v] == s.th[v]
  }

  lemma SameReaches(s: State, s2: State, p: Pid, q: Pid)
    requires s2.members == s.members && |s2.th| == |s.th|
    requires forall u :: 0 <= u < |s.th| ==> SameButRegs(s.th[u], s2.th[u])
    ensures Reaches(s2, p, q) ==> Reaches(s, p, q)
  {
    forall path | IsPath(s2, path) && path[0] == p && path[|path| - 1] == q ensures Reaches(s, p, q) {
      assert IsPath(s, path);
    }
  }

  lemma StepCaller(s: State, a: Action)
    requires CanStep(s, a) && a.Call?
    ensures CanCall(s) && WellFormed(s) && s.cur < |s.th| && s.th[s.cur].proc.Some?
  {
  }

  lemma EntryView(s: State, a: Action, e: State)
    requires CanStep(s, a) && a.Call? && e == AtEntry(s, a)
    ensures CanCall(e) && e.cur == s.cur && |e.th| == |s.th| && e.wait == s.wait && e.members == s.members
    ensures forall u :: 0 <= u < |s.th| ==> SameButRegs(s.th[u], e.th[u])
    ensures forall u :: 0 <= u < |s.th| && u != s.cur ==> e.th[u] == s.th[u]
    ensures e.th[e.cur].ctx.esi == s.th[s.cur].proc.value
    ensures InRegs(e.cur, e.th[e.cur].ctx) == Msg(s.cur, s.th[s.cur].proc.value, a.m1, a.m2, a.m3)
  {
    EntrySame(s, a);
  }

  // ---- send ----

  /** The caller sent to `p`: to the receiving thread `r`, or else it waits. */
  ghost predicate SentTo(s: State, s2: State, p: Pid, r: Option<Tid>)
    requires s.cur < |s.th|
  {
    var t := s.cur;
    match r
    case Some(u) => (
      && u < |s.th| && u != t && OnlyChanged(s, s2, t, u) && s2.wait == s.wait
      && s.th[u].proc == Some(p) && Accepts(s.th[u], s.th[t].proc)
      && s2.th[u] == s.th[u].(receiving := false, run := Ready, ctx := s2.th[u].ctx)
      && Some(s2.th[u].ctx.esi) == s.th[t].proc
      && s2.th[t] == s.th[t].(sending := false, sendTo := Some(p), run := Blocked, ctx := s2.th[t].ctx))
    case None => (
      && OnlyChanged(s, s2, t, t) && p in s.wait && s2.wait == s.wait[p := s.wait[p] + [t]]
      && (forall u :: 0 <= u < |s.th| && s.th[u].proc == Some(p) ==> !Accepts(s.th[u], s.th[t].proc))
      && s2.th[t] == s.th[t].(sending := true, sendTo := Some(p), run := Blocked, ctx := s2.th[t].ctx)
      && Some(s2.th[t].ctx.esi) == s.th[t].proc)
  }

  lemma DeliveredView(e: State, p: Pid, r: Tid)
    requires CanCall(e) && p in e.members && r < |e.th| && r != e.cur && e.th[r].proc == Some(p) && Accepts(e.th[r], e.th[e.cur].proc)
    requires Some(e.th[e.cur].ctx.esi) == e.th[e.cur].proc
    ensures SentTo(e, Elect(Deliver(e, e.cur, p, r)), p, Some(r))
  {
  }

  lemma QueuedView(e: State, p: Pid)
    requires CanCall(e) && p in e.members
    requires forall u :: 0 <= u < |e.th| && e.th[u].proc == Some(p) ==> !Accepts(e.th[u], e.th[e.cur].proc)
    requires Some(e.th[e.cur].ctx.esi) == e.th[e.cur].proc
    ensures SentTo(e, Elect(Enqueue(e, e.cur, p)), p, None)
  {
  }

  lemma SearchView(e: State, p: Pid)
    requires CanCall(e) && p in e.members
    ensures match FindReceiver(Sending(e, e.cur, p), p, e.th[e.cur].proc)
            case Some(r) => r < |e.th| && r != e.cur && e.th[r].proc == Some(p) && Accepts(e.th[r], e.th[e.cur].proc)
            case None => forall u :: 0 <= u < |e.th| && e.th[u].proc == Some(p) ==> !Accepts(e.th[u], e.th[e.cur].proc)
  {
    assert Placed(e, e.cur);
    match FindReceiver(Sending(e, e.cur, p), p, e.th[e.cur].proc)
    case Some(r) =>
      assert r in e.members[p];
    case None =>
      forall u | 0 <= u < |e.th| && e.th[u].proc == Some(p) ensures !Accepts(e.th[u], e.th[e.cur].proc) {
        assert u in e.members[p];
        assert u != e.cur ==> Sending(e, e.cur, p).th[u] == e.th[u];
      }
  }

  lemma SendViewAt(e: State, p: Pid) returns (r: Option<Tid>)
    requires CanCall(e) && p in e.members && !Reaches(e, p, e.th[e.cur].proc.value)
    requires Some(e.th[e.cur].ctx.esi) == e.th[e.cur].proc
    ensures r == FindReceiver(Sending(e, e.cur, p), p, e.th[e.cur].proc)
    ensures Send(e, e.cur, Some(p)).1 == IPC_SUCCESS && SentTo(e, Send(e, e.cur, Some(p)).0, p, r)
  {
    hide Inv, SentTo, Deliver, Enqueue, Elect, FindReceiver, Reaches;
    CallerWell(e);
    r := FindReceiver(Sending(e, e.cur, p), p, e.th[e.cur].proc);
    SearchView(e, p);
    match r
    case Some(u) => DeliveredView(e, p, u);
    case None => QueuedView(e, p);
  }

  lemma CallerWell(e: State)
    requires CanCall(e)
    ensures WellFormed(e) && e.cur < |e.th| && e.th[e.cur].proc.Some?
  {
  }

  /** The return code is all the handler adds. */
  lemma SentToFrom(s: State, e: State, s1: State, s2: State, p: Pid, r: Option<Tid>)
    requires s.cur < |s.th| && e.cur == s.cur && |e.th| == |s.th| && e.members == s.members && e.wait == s.wait
    requires forall u :: 0 <= u < |s.th| ==> SameButRegs(s.th[u], e.th[u]) && (u != s.cur ==> e.th[u] == s.th[u])
    requires SentTo(e, s1, p, r) && |s1.th| == |e.th|
    requires exists regs :: s2 == SetReg(s1, s.cur, regs) && regs.esi == s1.th[s.cur].ctx.esi
    ensures SentTo(s, s2, p, r)
  {
  }

  lemma SendView(h: History, s: State, a: Action) returns (r: Option<Tid>)
    requires CanStep(s, a) && a.Call? && a.num == SYSCALL_SEND && a.dest in s.members
    requires !Reaches(s, a.dest, s.th[s.cur].proc.value)
    ensures SentTo(s, Step(s, a), a.dest, r)
    ensures r.Some? ==> Recorded(h, s, a).got == Append(h.got, a.dest, Msg(s.cur, s.th[s.cur].proc.value, a.m1, a.m2, a.m3))
    ensures r.None? ==> Recorded(h, s, a).got == h.got
    ensures s.cur < |Step(s, a).th| && Step(s, a).th[s.cur].ctx.eax == IPC_SUCCESS.Code()
  {
    hide Inv, SentTo, Reaches, Send, FindReceiver, Step, OnlyChanged;
    StepCaller(s, a);
    var e := AtEntry(s, a);
    EntryView(s, a, e);
    SameReaches(s, e, a.dest, s.th[s.cur].proc.value);
    r := SendViewAt(e, a.dest);
    SendRecord(h, s, a, e, r);
    SendReturns(s, a, e);
    var s1 := Send(e, e.cur, Some(a.dest)).0;
    SentToFrom(s, e, s1, Step(s, a), a.dest, r);
  }

  lemma SendReturns(s: State, a: Action, e: State)
    requires CanStep(s, a) && a.Call? && a.num == SYSCALL_SEND && a.dest in s.members && e == AtEntry(s, a) && CanCall(e)
    ensures var (s1, res) := Send(e, e.cur, Some(a.dest));
      |s1.th| == |s.th| && Step(s, a) == SetReg(s1, s.cur, s1.th[s.cur].ctx.(eax := res.Code()))
  {
    EntryReady(s, a, e, a.dest);
    HandleUnfolds(s, a, e);
    DispatchSize(e, a.num, a.dest);
  }

  lemma SendRecordAt(h: History, e: State, p: Pid, r: Option<Tid>)
    requires CanCall(e) && p in e.members && !Reaches(e, p, e.th[e.cur].proc.value)
    requires r == FindReceiver(Sending(e, e.cur, p), p, e.th[e.cur].proc)
    ensures var h2 := RecordSend(h, e, p, Send(e, e.cur, Some(p)).0);
      h2.got == if r.Some? then Append(h.got, p, InRegs(e.cur, e.th[e.cur].ctx)) else h.got
  {
    hide Inv, Send, Reaches, FindReceiver;
    CallerWell(e);
    if r.Some? { SendDelivers(e, p, r.value); }
  }

  lemma SendRecord(h: History, s: State, a: Action, e: State, r: Option<Tid>)
    requires CanStep(s, a) && a.Call? && a.num == SYSCALL_SEND && a.dest in s.members && e == AtEntry(s, a) && CanCall(e)
    requires InRegs(e.cur, e.th[e.cur].ctx) == Msg(s.cur, s.th[s.cur].proc.value, a.m1, a.m2, a.m3)
    requires !Reaches(e, a.dest, e.th[e.cur].proc.value)
    requires r == FindReceiver(Sending(e, e.cur, a.dest), a.dest, e.th[e.cur].proc)
    requires e.members == s.members && e.cur == s.cur
    ensures r.Some? ==> Recorded(h, s, a).got == Append(h.got, a.dest, Msg(s.cur, s.th[s.cur].proc.value, a.m1, a.m2, a.m3))
    ensures r.None? ==> Recorded(h, s, a).got == h.got
  {
    SendRecordAt(h, e, a.dest, r);
    SendDispatched(h, s, a, e);
  }

  lemma SendDispatched(h: History, s: State, a: Action, e: State)
    requires CanStep(s, a) && a.Call? && a.num == SYSCALL_SEND && a.dest in s.members && e == AtEntry(s, a) && CanCall(e)
    requires e.members == s.members
    ensures Recorded(h, s, a) == RecordSend(h, e, a.dest, Send(e, e.cur, Some(a.dest)).0)
  {
    hide Reaches, RecordSend, Send;
  }

  // ---- receive ----

  /** `u` left the wait list of the caller's process; it was the first if any sender would do. */
  ghost predicate Unqueued(s: State, s2: State, from: Option<Pid>, u: Tid)
    requires s.cur < |s.th|
  {
    && s.th[s.cur].proc.Some?
    && var me := s.th[s.cur].proc.value;
      && me in s.wait && s2.wait == s.wait[me := Remove(s.wait[me], u)]
      && (from == None ==> s.wait[me] != [] && s.wait[me][0] == u)
  }

  /** The caller took the message of `r`, or else it waits for one from `from`. */
  ghost predicate ReceivedFrom(s: State, s2: State, from: Option<Pid>, r: Option<Tid>)
    requires s.cur < |s.th|
  {
    var t := s.cur;
    match r
    case Some(u) => (
      && u < |s.th| && u != t && OnlyChanged(s, s2, t, u) && Unqueued(s, s2, from, u)
      && s.th[u].sending && s.th[u].sendTo == s.th[t].proc && (from.Some? ==> s.th[u].proc == from)
      && s2.th[u] == s.th[u].(run := Ready, sending := false)
      && s2.th[t] == s.th[t].(recvFrom := from, receiving := false, ctx := s2.th[t].ctx)
      && s2.th[t].ctx.esi == s.th[u].ctx.esi)
    case None => (
      && OnlyChanged(s, s2, t, t) && s2.wait == s.wait
      && (forall u :: 0 <= u < |s.th| && s.th[u].sending && s.th[u].sendTo == s.th[t].proc ==>
            from.Some? && s.th[u].proc != from)
      && s2.th[t] == s.th[t].(recvFrom := from, receiving := true, run := Blocked, ctx := s2.th[t].ctx))
  }

  lemma WaitingSenderView(e: State, from: Option<Pid>)
    requires CanCall(e)
    ensures match FindWaitingSender(e, e.th[e.cur].proc.value, from)
            case Some(u) => (
              && u < |e.th| && u != e.cur && e.th[u].sending && e.th[u].sendTo == e.th[e.cur].proc
              && (from.Some? ==> e.th[u].proc == from))
            case None => (
              forall u :: 0 <= u < |e.th| && e.th[u].sending && e.th[u].sendTo == e.th[e.cur].proc ==>
                from.Some? && e.th[u].proc != from)
  {
    var me := e.th[e.cur].proc.value;
    assert Placed(e, e.cur);
    match FindWaitingSender(e, me, from)
    case Some(u) =>
      assert Placed(e, u);
    case None =>
      forall u | 0 <= u < |e.th| && e.th[u].sending && e.th[u].sendTo == e.th[e.cur].proc
        ensures from.Some? && e.th[u].proc != from
      {
        assert Placed(e, u) && u in e.wait[me];
      }
  }

  lemma ReceiveViewAt(e: State, from: Option<Pid>) returns (r: Option<Tid>)
    requires CanCall(e)
    ensures r == FindWaitingSender(e, e.th[e.cur].proc.value, from)
    ensures ReceivedFrom(e, Receive(e, e.cur, from), from, r)
  {
    r := FindWaitingSender(e, e.th[e.cur].proc.value, from);
    WaitingSenderView(e, from);
    ReceiveFields(e, from, r);
  }

  lemma ReceiveFields(e: State, from: Option<Pid>, r: Option<Tid>)
    requires CanCall(e) && r == FindWaitingSender(e, e.th[e.cur].proc.value, from)
    requires r.Some? ==> r.value < |e.th| && r.value != e.cur
    ensures var s2 := Receive(e, e.cur, from); var t := e.cur;
      && OnlyChanged(e, s2, t, if r.Some? then r.value else t)
      && (r.None? ==> s2.wait == e.wait)
      && (r.Some? ==>
            && Unqueued(e, s2, from, r.value)
            && s2.th[r.value] == e.th[r.value].(run := Ready, sending := false)
            && s2.th[t] == e.th[t].(recvFrom := from, receiving := false, ctx := s2.th[t].ctx)
            && s2.th[t].ctx.esi == e.th[r.value].ctx.esi)
      && (r.None? ==> s2.th[t] == e.th[t].(recvFrom := from, receiving := true, run := Blocked))
  {
  }

  lemma ReceivedFromFrom(s: State, e: State, s1: State, s2: State, from: Option<Pid>, r: Option<Tid>)
    requires s.cur < |s.th| && e.cur == s.cur && |e.th| == |s.th| && e.members == s.members && e.wait == s.wait
    requires forall u :: 0 <= u < |s.th| ==> SameButRegs(s.th[u], e.th[u]) && (u != s.cur ==> e.th[u] == s.th[u])
    requires ReceivedFrom(e, s1, from, r) && |s1.th| == |e.th|
    requires exists regs :: s2 == SetReg(s1, s.cur, regs) && regs.esi == s1.th[s.cur].ctx.esi
    ensures ReceivedFrom(s, s2, from, r)
  {
  }

  lemma ReceiveReturns(s: State, a: Action, e: State)
    requires CanStep(s, a) && a.Call? && a.num == SYSCALL_RECEIVE && (a.dest == IPC_ANY || a.dest in s.members)
    requires e == AtEntry(s, a) && CanCall(e)
    ensures var s1 := Receive(e, e.cur, Target(a.dest));
      |s1.th| == |s.th| && Step(s, a) == SetReg(s1, s.cur, s1.th[s.cur].ctx.(eax := IPC_SUCCESS.Code()))
  {
    HandleUnfolds(s, a, e);
    DispatchSize(e, a.num, a.dest);
    ReceiveDispatch(s, a, e);
  }

  lemma ReceiveDispatch(s: State, a: Action, e: State)
    requires CanStep(s, a) && a.Call? && a.num == SYSCALL_RECEIVE && (a.dest == IPC_ANY || a.dest in s.members)
    requires e == AtEntry(s, a) && CanCall(e)
    ensures Dispatch(e, a.num, a.dest) == (Receive(e, e.cur, Target(a.dest)), IPC_SUCCESS)
  {
  }

  lemma ReceiveRecordAt(h: History, e: State, from: Option<Pid>, r: Option<Tid>)
    requires CanCall(e) && r == FindWaitingSender(e, e.th[e.cur].proc.value, from)
    ensures r.Some? ==> r.value < |e.th|
    ensures var h2 := RecordReceive(h, e, from, Receive(e, e.cur, from));
      h2.got == if r.Some? then Append(h.got, e.th[e.cur].proc.value, InRegs(r.value, e.th[r.value].ctx)) else h.got
  {
    hide Inv, Receive, FindWaitingSender;
    CallerWell(e);
    if r.Some? { ReceiveServes(e, from, r.value); }
  }

  lemma ReceiveDispatched(h: History, s: State, a: Action, e: State)
    requires CanStep(s, a) && a.Call? && a.num == SYSCALL_RECEIVE && (a.dest == IPC_ANY || a.dest in s.members)
    requires e == AtEntry(s, a) && CanCall(e)
    ensures Recorded(h, s, a) == RecordReceive(h, e, Target(a.dest), Receive(e, e.cur, Target(a.dest)))
  {
    hide RecordReceive, Receive;
    ReceiveDispatch(s, a, e);
  }

  lemma ReceiveRecord(h: History, s: State, a: Action, e: State, r: Option<Tid>)
    requires CanStep(s, a) && a.Call? && a.num == SYSCALL_RECEIVE && (a.dest == IPC_ANY || a.dest in s.members)
    requires e == AtEntry(s, a) && CanCall(e) && e.cur == s.cur && e.th[e.cur].proc == s.th[s.cur].proc
    requires r == FindWaitingSender(e, e.th[e.cur].proc.value, Target(a.dest))
    ensures r.Some? ==>
      r.value < |e.th| && Recorded(h, s, a).got == Append(h.got, s.th[s.cur].proc.value, InRegs(r.value, e.th[r.value].ctx))
    ensures r.None? ==> Recorded(h, s, a).got == h.got
  {
    ReceiveRecordAt(h, e, Target(a.dest), r);
    ReceiveDispatched(h, s, a, e);
  }

  lemma ReceiveView(h: History, s: State, a: Action) returns (r: Option<Tid>)
    requires CanStep(s, a) && a.Call? && a.num == SYSCALL_RECEIVE && (a.dest == IPC_ANY || a.dest in s.members)
    ensures ReceivedFrom(s, Step(s, a), Target(a.dest), r)
    ensures r.Some? ==>
      r.value < |s.th| && Recorded(h, s, a).got == Append(h.got, s.th[s.cur].proc.value, InRegs(r.value, s.th[r.value].ctx))
    ensures r.None? ==> Recorded(h, s, a).got == h.got
    ensures s.cur < |Step(s, a).th| && Step(s, a).th[s.cur].ctx.eax == IPC_SUCCESS.Code()
  {
    hide Inv, ReceivedFrom, Receive, FindWaitingSender, Step, OnlyChanged;
    StepCaller(s, a);
    var e := AtEntry(s, a);
    EntryView(s, a, e);
    CallerWell(e);
    r := ReceiveViewAt(e, Target(a.dest));
    ReceiveRecord(h, s, a, e, r);
    ReceiveReturns(s, a, e);
    WaitingSenderView(e, Target(a.dest));
    ReceivedFromFrom(s, e, Receive(e, e.cur, Target(a.dest)), Step(s, a), Target(a.dest), r);
  }

  // ---- notify ----

  /** The caller woke `r`, which left the wait list if it was still queued, or there was nobody to wake. */
  ghost predicate Notified(s: State, s2: State, p: Pid, r: Option<Tid>)
    requires s.cur < |s.th|
  {
    var t := s.cur;
    match r
    case Some(u) => (
      && u < |s.th| && u != t && OnlyChanged(s, s2, t, u)
      && (if s.th[u].sending then Unqueued(s, s2, Some(p), u) else s2.wait == s.wait)
      && s.th[u].proc == Some(p) && Wakeable(s.th[u], s.th[t].proc)
      && s2.th[u] == s.th[u].(run := Ready, sending := false) && SameButRegs(s.th[t], s2.th[t]))
    case None => (
      && OnlyChanged(s, s2, t, t) && SameButRegs(s.th[t], s2.th[t]) && s2.wait == s.wait
      && (forall u :: 0 <= u < |s.th| && s.th[u].proc == Some(p) ==> !Wakeable(s.th[u], s.th[t].proc)))
  }

  /** What a notify finds: a thread of `p` that it wakes, or no such thread. */
  lemma NotifyFinds(e: State, p: Pid)
    requires CanCall(e) && p in e.members
    ensures match FindBlockedSender(e, e.th[e.cur].proc, p)
            case Some(u) => (
              && u < |e.th| && u != e.cur && (u in e.blocked <==> !e.th[u].sending) && e.th[u].proc == Some(p)
              && Wakeable(e.th[u], e.th[e.cur].proc))
            case None => forall u :: 0 <= u < |e.th| && e.th[u].proc == Some(p) ==> !Wakeable(e.th[u], e.th[e.cur].proc)
  {
    hide NoRepeats, NoMissedRendezvous;
    assert Placed(e, e.cur);
    match FindBlockedSender(e, e.th[e.cur].proc, p)
    case Some(u) =>
      assert u in e.members[p] && Placed(e, u);
    case None =>
      forall u | 0 <= u < |e.th| && e.th[u].proc == Some(p) ensures !Wakeable(e.th[u], e.th[e.cur].proc) {
        assert u in e.members[p];
      }
  }

  lemma NotifyViewAt(e: State, p: Pid) returns (r: Option<Tid>)
    requires CanCall(e) && p in e.members && !SelectsWaitHead(e, p)
    ensures r.Some? ==> r.value < |e.th| && (e.th[r.value].sending <==> SelectsQueued(e, p))
    ensures Notified(e, Notify(e, e.th[e.cur].proc, p), p, r)
  {
    NotifyFinds(e, p);
    if SelectsQueued(e, p) { var u := NotifyUnlinks(e, p); }
    hide FindBlockedSender, AllPlaced, Membership, NoRepeats, NoMissedRendezvous;
    r := FindBlockedSender(e, e.th[e.cur].proc, p);
  }

  lemma NotifiedFrom(s: State, e: State, s1: State, s2: State, p: Pid, r: Option<Tid>)
    requires s.cur < |s.th| && e.cur == s.cur && |e.th| == |s.th| && e.members == s.members && e.wait == s.wait
    requires forall u :: 0 <= u < |s.th| ==> SameButRegs(s.th[u], e.th[u]) && (u != s.cur ==> e.th[u] == s.th[u])
    requires Notified(e, s1, p, r) && |s1.th| == |e.th|
    requires exists regs :: s2 == SetReg(s1, s.cur, regs)
    ensures Notified(s, s2, p, r)
  {
  }

  lemma NotifyReturns(s: State, a: Action, e: State)
    requires CanStep(s, a) && a.Call? && a.num == SYSCALL_NOTIFY && a.dest in s.members && e == AtEntry(s, a) && CanCall(e)
    requires e.members == s.members
    ensures var s1 := Notify(e, e.th[e.cur].proc, a.dest);
      |s1.th| == |s.th| && Step(s, a) == SetReg(s1, s.cur, s1.th[s.cur].ctx.(eax := IPC_SUCCESS.Code()))
  {
    HandleUnfolds(s, a, e);
    DispatchSize(e, a.num, a.dest);
  }

  lemma NotifyView(h: History, s: State, a: Action) returns (r: Option<Tid>)
    requires CanStep(s, a) && a.Call? && a.num == SYSCALL_NOTIFY && a.dest in s.members
    ensures r.Some? ==> r.value < |s.th| && (s.th[r.value].sending <==> SelectsQueued(s, a.dest))
    ensures Notified(s, Step(s, a), a.dest, r) && Recorded(h, s, a).got == h.got
    ensures s.cur < |Step(s, a).th| && Step(s, a).th[s.cur].ctx.eax == IPC_SUCCESS.Code()
  {
    hide Inv, Notified, Notify, FindBlockedSender, SelectsQueued, SelectsWaitHead, Step, OnlyChanged, Reaches;
    StepCaller(s, a);
    var e := AtEntry(s, a);
    EntryView(s, a, e);
    EntryReady(s, a, e, a.dest);
    CallerWell(e);
    r := NotifyViewAt(e, a.dest);
    NotifyReturns(s, a, e);
    NotifiedFrom(s, e, Notify(e, e.th[e.cur].proc, a.dest), Step(s, a), a.dest, r);
  }
}
