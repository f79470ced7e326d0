/** Message integrity: what is delivered is what was sent, no message is lost or made up, and order. */
module IpcMessages {
  import opened SeqLists
  import opened IpcState
  import opened IpcInvariant
  import opened IpcRuns

  /** A message as a pair of a sending thread and the four registers that carry it. */
  datatype Msg = Msg(tid: Tid, from: Word, m1: Word, m2: Word, m3: Word)

  function InRegs(t: Tid, regs: Regs): Msg {
    Msg(t, regs.esi, regs.ebx, regs.ecx, regs.edx)
  }

  /**
    For each process, the messages accepted for it, the ones its threads received, and the
    ones it lost by notifying a sender that was still queued, in order.
   */
  datatype History = History(sent: map<Pid, seq<Msg>>, got: map<Pid, seq<Msg>>, lost: map<Pid, seq<Msg>>)

  /** The messages waiting in a list of threads. */
  function Waiting(th: seq<Thread>, ids: seq<Tid>): (r: seq<Msg>)
    requires forall t :: t in ids ==> t < |th|
    ensures |r| == |ids|
  {
    if ids == [] then []
    else
      assert ids[0] in ids && forall t :: t in ids[1..] ==> t in ids;
      [InRegs(ids[0], th[ids[0]].ctx)] + Waiting(th, ids[1..])
  }

  function InFlight(s: State, q: Pid): seq<Msg>
    requires WellFormed(s) && q in s.wait
  {
    Waiting(s.th, s.wait[q])
  }

  function Append(h: map<Pid, seq<Msg>>, q: Pid, m: Msg): (r: map<Pid, seq<Msg>>)
    ensures r.Keys == h.Keys
    ensures forall p :: p in h ==> r[p] == if p == q then h[p] + [m] else h[p]
  {
    if q in h then h[q := h[q] + [m]] else h
  }

  /** The state a system call works on: the call loaded and the caller's pid put in ESI. */
  function AtEntry(s: State, a: Action): State
    requires WellFormed(s) && a.Call? && s.th[s.cur].proc.Some?
  {
    Entered(Loaded(s, a))
  }

  /** The history after `e.cur` sent to `p`, ending in `s1`. */
  ghost function RecordSend(h: History, e: State, p: Pid, s1: State): History
    requires WellFormed(e) && e.th[e.cur].proc.Some? && p in e.members
  {
    if Reaches(e, p, e.th[e.cur].proc.value) then h
    else
      var h1 := h.(sent := Append(h.sent, p, InRegs(e.cur, e.th[e.cur].ctx)));
      match FindReceiver(Sending(e, e.cur, p), p, e.th[e.cur].proc)
      case Some(r) => if r < |s1.th| then h1.(got := Append(h.got, p, InRegs(e.cur, s1.th[r].ctx))) else h1
      case None => h1
  }

  /** The history after `e.cur` asked for a message, ending in `s1`. */
  ghost function RecordReceive(h: History, e: State, from: Option<Pid>, s1: State): History
    requires WellFormed(e) && e.th[e.cur].proc.Some?
  {
    match FindWaitingSender(e, e.th[e.cur].proc.value, from)
    case Some(t) =>
      if e.cur < |s1.th| then h.(got := Append(h.got, e.th[e.cur].proc.value, InRegs(t, s1.th[e.cur].ctx))) else h
    case None => h
  }

  /** The history after `e.cur` notified `p`. */
  ghost function RecordNotify(h: History, e: State, p: Pid): History
    requires WellFormed(e) && e.th[e.cur].proc.Some? && p in e.members
  {
    match FindBlockedSender(e, e.th[e.cur].proc, p)
    case Some(u) =>
      if u < |e.th| && e.th[u].sending then h.(lost := Append(h.lost, e.th[e.cur].proc.value, InRegs(u, e.th[u].ctx))) else h
    case None => h
  }

  ghost function RecordCall(h: History, e: State, num: Word, dest: Word): History
    requires WellFormed(e) && e.th[e.cur].proc.Some?
    requires num == SYSCALL_NOTIFY ==> dest != IPC_ANY
  {
    if dest != IPC_ANY && dest !in e.members then h
    else if num == SYSCALL_SEND && dest != IPC_ANY then RecordSend(h, e, dest, Dispatch(e, num, dest).0)
    else if num == SYSCALL_RECEIVE then RecordReceive(h, e, Target(dest), Dispatch(e, num, dest).0)
    else if num == SYSCALL_NOTIFY then RecordNotify(h, e, dest)
    else h
  }

  /**
    The history after an action. A message counts as sent with the registers of the
    call, and as received with what the receiver's registers then hold.
   */
  ghost function Recorded(h: History, s: State, a: Action): History
    requires WellFormed(s) && Enabled(s, a)
  {
    if a.Tick? then h else RecordCall(h, AtEntry(s, a), a.num, a.dest)
  }

  ghost predicate CanStep(s: State, a: Action) {
    Safe(s) && Enabled(s, a)
  }

  /** Every thread of `q` that is receiving accepts any sender. */
  ghost predicate ReceivesFromAny(s: State, q: Pid) {
    forall u :: 0 <= u < |s.th| && s.th[u].proc == Some(q) && s.th[u].receiving ==> s.th[u].recvFrom == None
  }

  /** The messages for `q` are received in the order they were accepted. */
  ghost predicate InOrder(h: History, s: State, q: Pid)
    requires WellFormed(s)
  {
    q in s.wait && q in h.sent && q in h.got && ReceivesFromAny(s, q) && h.sent[q] == h.got[q] + InFlight(s, q)
  }

  // ---- lists of waiting messages ----

  lemma {:induction false} WaitingSame(th: seq<Thread>, th2: seq<Thread>, ids: seq<Tid>)
    requires |th| <= |th2| && forall t :: t in ids ==> t < |th| && InRegs(t, th[t].ctx) == InRegs(t, th2[t].ctx)
    ensures Waiting(th, ids) == Waiting(th2, ids)
  {
    if ids != [] {
      assert ids[0] in ids && forall t :: t in ids[1..] ==> t in ids;
      WaitingSame(th, th2, ids[1..]);
    }
  }

  lemma {:induction false} WaitingAppend(th: seq<Thread>, ids: seq<Tid>, t: Tid)
    requires t < |th| && forall u :: u in ids ==> u < |th|
    ensures Waiting(th, ids + [t]) == Waiting(th, ids) + [InRegs(t, th[t].ctx)]
  {
    if ids != [] {
      assert (ids + [t])[1..] == ids[1..] + [t];
      assert forall u :: u in ids[1..] ==> u in ids;
      WaitingAppend(th, ids[1..], t);
    }
  }

  lemma {:induction false} WaitingRemove(th: seq<Thread>, ids: seq<Tid>, t: Tid)
    requires t in ids && forall u :: u in ids ==> u < |th|
    ensures multiset(Waiting(th, ids)) == multiset(Waiting(th, Remove(ids, t))) + multiset{InRegs(t, th[t].ctx)}
  {
    hide Remove, Waiting;
    var u, rest := ids[0], ids[1..];
    assert u in ids && ids == [u] + rest;
    assert forall v :: v in rest ==> v in ids;
    WaitingHead(th, u, rest);
    RemoveHead(ids, t);
    if u != t {
      WaitingRemove(th, rest, t);
      WaitingHead(th, u, Remove(rest, t));
    }
  }

  lemma RemoveHead(ids: seq<Tid>, t: Tid)
    requires ids != []
    ensures Remove(ids, t) == if ids[0] == t then ids[1..] else [ids[0]] + Remove(ids[1..], t)
  {
  }

  lemma WaitingHead(th: seq<Thread>, u: Tid, ids: seq<Tid>)
    requires u < |th| && forall v :: v in ids ==> v < |th|
    ensures Waiting(th, [u] + ids) == [InRegs(u, th[u].ctx)] + Waiting(th, ids)
  {
    assert ([u] + ids)[1..] == ids;
  }

  // ---- the effect of one step on the messages of one process ----

  /** Messages of threads that keep their message registers. */
  lemma FlightSame(s: State, s2: State, q: Pid)
    requires WellFormed(s) && WellFormed(s2) && q in s.wait && q in s2.wait && s2.wait[q] == s.wait[q] && |s2.th| == |s.th|
    requires forall t :: t in s.wait[q] ==> InRegs(t, s2.th[t].ctx) == InRegs(t, s.th[t].ctx)
    ensures InFlight(s2, q) == InFlight(s, q)
  {
    WaitingSame(s.th, s2.th, s.wait[q]);
  }

  /** A step that leaves the wait list of `q` and the registers of the threads in it. */
  lemma Untouched(s: State, s2: State, q: Pid)
    requires Inv(s) && WellFormed(s2) && q in s.wait && q in s2.wait && |s2.th| == |s.th| && s2.wait[q] == s.wait[q]
    requires forall t :: 0 <= t < |s.th| && s.th[t].run == Blocked && s.th[t].sending ==> s2.th[t].ctx == s.th[t].ctx
    ensures InFlight(s2, q) == InFlight(s, q)
  {
    forall t | t in s.wait[q] ensures InRegs(t, s2.th[t].ctx) == InRegs(t, s.th[t].ctx) { assert Placed(s, t); }
    FlightSame(s, s2, q);
  }

  lemma EntrySame(s: State, a: Action)
    requires CanStep(s, a) && a.Call?
    ensures CanCall(AtEntry(s, a)) && Acyclic(AtEntry(s, a))
    ensures forall q :: q in s.wait ==> InFlight(AtEntry(s, a), q) == InFlight(s, q)
    ensures InRegs(s.cur, AtEntry(s, a).th[s.cur].ctx) == Msg(s.cur, s.th[s.cur].proc.value, a.m1, a.m2, a.m3)
  {
    var l := Loaded(s, a);
    SetRegKeeps(s, s.cur, l.th[s.cur].ctx);
    SameEdges(s, s.cur, l.th[s.cur].ctx);
    SetRegKeeps(l, s.cur, Entered(l).th[s.cur].ctx);
    SameEdges(l, s.cur, Entered(l).th[s.cur].ctx);
    assert Placed(s, s.cur);
    forall q | q in s.wait ensures InFlight(AtEntry(s, a), q) == InFlight(s, q) {
      Untouched(s, AtEntry(s, a), q);
    }
  }

  /** A thread that accepts anyone cannot be receiving while somebody waits. */
  lemma NobodyWaits(e: State, p: Pid, r: Tid)
    requires Inv(e) && p in e.wait && r < |e.th| && e.th[r].proc == Some(p) && e.th[r].IsReceiving() && e.th[r].recvFrom == None
    ensures e.wait[p] == []
  {
    if |e.wait[p]| > 0 { NotMissed(e, p, e.wait[p][0], r); }
  }

  lemma NotMissed(e: State, p: Pid, v: Tid, r: Tid)
    requires Inv(e) && p in e.wait && v in e.wait[p] && r < |e.th| && e.th[r].proc == Some(p)
    ensures v < |e.th| && !Accepts(e.th[r], e.th[v].proc)
  {
  }

  lemma SendFinds(e: State, p: Pid, r: Tid)
    requires CanCall(e) && p in e.members && !Reaches(e, p, e.th[e.cur].proc.value)
    requires FindReceiver(Sending(e, e.cur, p), p, e.th[e.cur].proc) == Some(r)
    ensures r < |e.th| && r != e.cur && e.th[r].proc == Some(p) && e.th[r].IsReceiving() && e.th[e.cur].run == Ready
    ensures Send(e, e.cur, Some(p)).0 == Elect(Deliver(e, e.cur, p, r))
  {
    assert Placed(e, e.cur);
    assert r in e.members[p];
  }

  lemma SendDelivers(e: State, p: Pid, r: Tid)
    requires CanCall(e) && p in e.members && !Reaches(e, p, e.th[e.cur].proc.value)
    requires FindReceiver(Sending(e, e.cur, p), p, e.th[e.cur].proc) == Some(r)
    ensures r < |e.th| && r != e.cur && e.th[r].proc == Some(p) && e.th[r].IsReceiving()
    ensures var s1 := Send(e, e.cur, Some(p)).0;
      && Inv(s1) && |s1.th| == |e.th| && s1.wait == e.wait
      && InRegs(e.cur, s1.th[r].ctx) == InRegs(e.cur, e.th[e.cur].ctx)
      && (forall q :: q in e.wait ==> InFlight(s1, q) == InFlight(e, q))
    ensures ReceivesFromAny(e, p) ==> e.wait[p] == []
  {
    hide Send, FindReceiver, Reaches, Elect, Deliver, AllPlaced, NoMissedRendezvous, Membership, NoRepeats, IdsIn;
    SendKeeps(e, p);
    SendFinds(e, p, r);
    DeliverShape(e, e.cur, p, r);
    if ReceivesFromAny(e, p) { NobodyWaits(e, p, r); }
    forall q | q in e.wait ensures InFlight(Elect(Deliver(e, e.cur, p, r)), q) == InFlight(e, q) {
      DeliverFlight(e, e.cur, p, r, q);
    }
  }

  lemma DeliverShape(e: State, t: Tid, p: Pid, r: Tid)
    requires t < |e.th| && r < |e.th| && t != r
    ensures var s1 := Elect(Deliver(e, t, p, r));
      |s1.th| == |e.th| && s1.wait == e.wait && InRegs(t, s1.th[r].ctx) == InRegs(t, e.th[t].ctx)
  {
  }

  lemma DeliverFlight(e: State, t: Tid, p: Pid, r: Tid, q: Pid)
    requires Inv(e) && t < |e.th| && r < |e.th| && t != r && e.th[t].run == Ready && !e.th[r].sending && q in e.wait
    requires Inv(Elect(Deliver(e, t, p, r)))
    ensures InFlight(Elect(Deliver(e, t, p, r)), q) == InFlight(e, q)
  {
    Untouched(e, Elect(Deliver(e, t, p, r)), q);
  }

  lemma SendQueues(e: State, p: Pid)
    requires CanCall(e) && p in e.members && !Reaches(e, p, e.th[e.cur].proc.value)
    requires FindReceiver(Sending(e, e.cur, p), p, e.th[e.cur].proc) == None
    ensures var s1 := Send(e, e.cur, Some(p)).0;
      && Inv(s1) && |s1.th| == |e.th| && s1.wait.Keys == e.wait.Keys
      && (forall q :: q in e.wait && q != p ==> InFlight(s1, q) == InFlight(e, q))
      && InFlight(s1, p) == InFlight(e, p) + [InRegs(e.cur, e.th[e.cur].ctx)]
  {
    hide Send, FindReceiver, Reaches, InFlight, Elect, Enqueue, AllPlaced, NoMissedRendezvous, Membership, NoRepeats, IdsIn;
    SendKeeps(e, p);
    SendWaits(e, p);
    EnqueueFlight(e, e.cur, p, Send(e, e.cur, Some(p)).0);
  }

  lemma SendWaits(e: State, p: Pid)
    requires CanCall(e) && p in e.members && !Reaches(e, p, e.th[e.cur].proc.value)
    requires FindReceiver(Sending(e, e.cur, p), p, e.th[e.cur].proc) == None
    ensures Send(e, e.cur, Some(p)).0 == Elect(Enqueue(e, e.cur, p))
  {
  }

  lemma EnqueueFlight(e: State, t: Tid, p: Pid, s1: State)
    requires WellFormed(e) && WellFormed(s1) && t < |e.th| && p in e.wait && s1 == Elect(Enqueue(e, t, p))
    ensures |s1.th| == |e.th| && s1.wait.Keys == e.wait.Keys
    ensures forall q :: q in e.wait && q != p ==> InFlight(s1, q) == InFlight(e, q)
    ensures InFlight(s1, p) == InFlight(e, p) + [InRegs(t, e.th[t].ctx)]
  {
    hide Waiting;
    forall q | q in e.wait && q != p ensures InFlight(s1, q) == InFlight(e, q) { FlightSame(e, s1, q); }
    WaitingAppend(s1.th, e.wait[p], t);
    WaitingSame(e.th, s1.th, e.wait[p]);
  }

  lemma TakeOthers(e: State, t: Tid, from: Option<Pid>, a: Tid, ids: seq<Tid>)
    requires Core(e) && t < |e.th| && a < |e.th| && t != a && e.th[t].run == Ready && e.th[t].proc.Some?
    requires forall v :: v in ids ==> v < |e.th| && e.th[v].run == Blocked
    ensures Waiting(Take(e, t, from, e.th[t].proc.value, a).th, ids) == Waiting(e.th, ids)
  {
    WaitingSame(e.th, Take(e, t, from, e.th[t].proc.value, a).th, ids);
  }

  lemma TakeFlight(e: State, t: Tid, from: Option<Pid>, a: Tid)
    requires Inv(e) && t < |e.th| && e.th[t].run == Ready && e.th[t].proc.Some? && a in e.wait[e.th[t].proc.value]
    ensures var me := e.th[t].proc.value; var s1 := Take(e, t, from, me, a);
      && Inv(s1) && |s1.th| == |e.th| && s1.wait.Keys == e.wait.Keys && a < |e.th| && a != t
      && (forall q :: q in e.wait && q != me ==> InFlight(s1, q) == InFlight(e, q))
      && InFlight(s1, me) == Waiting(e.th, Remove(e.wait[me], a))
  {
    var me := e.th[t].proc.value;
    var s1 := Take(e, t, from, me, a);
    TakeShape(e, t, from, a);
    TakeKeeps(e, t, from, a);
    forall q | q in e.wait && q != me ensures InFlight(s1, q) == InFlight(e, q) {
      forall v | v in e.wait[q] ensures v < |e.th| && e.th[v].run == Blocked { assert Placed(e, v); }
      TakeOthers(e, t, from, a, e.wait[q]);
    }
    var rest := Remove(e.wait[me], a);
    forall v | v in rest ensures v < |e.th| && e.th[v].run == Blocked { assert Placed(e, v); }
    TakeOthers(e, t, from, a, rest);
  }

  lemma ReceiveFinds(e: State, from: Option<Pid>, a: Tid)
    requires CanCall(e) && FindWaitingSender(e, e.th[e.cur].proc.value, from) == Some(a)
    ensures a in e.wait[e.th[e.cur].proc.value] && e.th[e.cur].run == Ready && a < |e.th| && a != e.cur
    ensures Receive(e, e.cur, from) == Take(e, e.cur, from, e.th[e.cur].proc.value, a)
    ensures from == None ==> e.wait[e.th[e.cur].proc.value] == [a] + Remove(e.wait[e.th[e.cur].proc.value], a)
  {
    hide NoMissedRendezvous, Membership, NoRepeats, Reaches;
    assert Placed(e, e.cur) && Placed(e, a);
  }

  lemma ReceiveServes(e: State, from: Option<Pid>, a: Tid)
    requires CanCall(e) && FindWaitingSender(e, e.th[e.cur].proc.value, from) == Some(a)
    ensures var me := e.th[e.cur].proc.value; var s1 := Receive(e, e.cur, from);
      && Inv(s1) && |s1.th| == |e.th| && s1.wait.Keys == e.wait.Keys && a < |e.th|
      && (forall q :: q in e.wait && q != me ==> InFlight(s1, q) == InFlight(e, q))
      && multiset(InFlight(e, me)) == multiset(InFlight(s1, me)) + multiset{InRegs(a, e.th[a].ctx)}
      && (from == None ==> InFlight(e, me) == [InRegs(a, e.th[a].ctx)] + InFlight(s1, me))
      && InRegs(a, s1.th[e.cur].ctx) == InRegs(a, e.th[a].ctx)
  {
    ReceiveFinds(e, from, a);
    var w := e.wait[e.th[e.cur].proc.value];
    TakeFlight(e, e.cur, from, a);
    WaitingRemove(e.th, w, a);
    if from == None { WaitingHead(e.th, a, Remove(w, a)); }
  }

  lemma ReceiveBlocks(e: State, from: Option<Pid>)
    requires CanCall(e) && FindWaitingSender(e, e.th[e.cur].proc.value, from) == None
    ensures var s1 := Receive(e, e.cur, from);
      && Inv(s1) && |s1.th| == |e.th| && s1.wait == e.wait
      && (forall q :: q in e.wait ==> InFlight(s1, q) == InFlight(e, q))
  {
    var s1 := Receive(e, e.cur, from);
    ReceiveKeeps(e, from);
    assert Placed(e, e.cur);
    forall q | q in e.wait ensures InFlight(s1, q) == InFlight(e, q) { Untouched(e, s1, q); }
  }

  lemma NotifyMoves(e: State, p: Pid)
    requires CanCall(e) && p in e.members && !SelectsQueued(e, p)
    ensures var s1 := Notify(e, e.th[e.cur].proc, p);
      && Inv(s1) && |s1.th| == |e.th| && s1.wait == e.wait
      && (forall q :: q in e.wait ==> InFlight(s1, q) == InFlight(e, q))
  {
    var s1 := Notify(e, e.th[e.cur].proc, p);
    match FindBlockedSender(e, e.th[e.cur].proc, p)
    case None =>
    case Some(u) =>
      assert Placed(e, u);
      WakeKeeps(e, u);
      forall q | q in e.wait ensures InFlight(s1, q) == InFlight(e, q) { Untouched(e, s1, q); }
  }

  lemma NotifyUnlinks(e: State, p: Pid) returns (u: Tid)
    requires CanCall(e) && p in e.members && SelectsQueued(e, p) && !SelectsWaitHead(e, p)
    ensures u < |e.th| && FindBlockedSender(e, e.th[e.cur].proc, p) == Some(u) && e.th[u].sending
    ensures u in e.wait[e.th[e.cur].proc.value]
    ensures Notify(e, e.th[e.cur].proc, p) == Unlinked(e, u, e.th[e.cur].proc.value)
  {
    u := FindBlockedSender(e, e.th[e.cur].proc, p).value;
    assert Placed(e, u);
  }

  lemma UnlinkFlight(e: State, u: Tid, me: Pid, s1: State)
    requires WellFormed(e) && u < |e.th| && me in e.wait && u in e.wait[me]
    requires WellFormed(s1) && s1 == Unlinked(e, u, me)
    ensures |s1.th| == |e.th| && s1.wait.Keys == e.wait.Keys
    ensures forall q :: q in e.wait && q != me ==> InFlight(s1, q) == InFlight(e, q)
    ensures multiset(InFlight(e, me)) == multiset(InFlight(s1, me)) + multiset{InRegs(u, e.th[u].ctx)}
  {
    hide Waiting, Remove;
    forall q | q in e.wait && q != me ensures InFlight(s1, q) == InFlight(e, q) { FlightSame(e, s1, q); }
    WaitingRemove(e.th, e.wait[me], u);
    WaitingSame(e.th, s1.th, Remove(e.wait[me], u));
  }

  /** A queued sender that is notified leaves the wait list with its message, and nobody gets it. */
  lemma NotifyDrops(e: State, p: Pid) returns (u: Tid)
    requires CanCall(e) && p in e.members && SelectsQueued(e, p) && !SelectsWaitHead(e, p)
    ensures u < |e.th| && FindBlockedSender(e, e.th[e.cur].proc, p) == Some(u) && e.th[u].sending
    ensures var s1 := Notify(e, e.th[e.cur].proc, p); var me := e.th[e.cur].proc.value;
      && Inv(s1) && |s1.th| == |e.th| && s1.wait.Keys == e.wait.Keys
      && (forall q :: q in e.wait && q != me ==> InFlight(s1, q) == InFlight(e, q))
      && multiset(InFlight(e, me)) == multiset(InFlight(s1, me)) + multiset{InRegs(u, e.th[u].ctx)}
  {
    hide Notify, SelectsQueued, SelectsWaitHead, FindBlockedSender, Unlinked, InFlight, AllPlaced, NoMissedRendezvous;
    u := NotifyUnlinks(e, p);
    NotifyExact(e, p);
    UnlinkFlight(e, u, e.th[e.cur].proc.value, Notify(e, e.th[e.cur].proc, p));
  }

  lemma ReturnSame(s1: State, t: Tid, res: Result, q: Pid)
    requires Inv(s1) && t < |s1.th| && q in s1.wait
    ensures var s2 := SetReg(s1, t, s1.th[t].ctx.(eax := res.Code()));
      Inv(s2) && InFlight(s2, q) == InFlight(s1, q)
  {
    var s2 := SetReg(s1, t, s1.th[t].ctx.(eax := res.Code()));
    SetRegKeeps(s1, t, s2.th[t].ctx);
    FlightSame(s1, s2, q);
  }

  /** Does the step of `s` by `a` serve or hand over messages of `q`, and which? */
  datatype Move = Nothing | Through(m: Msg) | Queue(m: Msg) | Serve(m: Msg, first: bool) | Drop(m: Msg)

  ghost predicate Moved(h: History, h2: History, f: seq<Msg>, f2: seq<Msg>, q: Pid, move: Move) {
    && q in h.sent && q in h.got && q in h2.sent && q in h2.got && q in h.lost && q in h2.lost
    && (!move.Drop? ==> h2.lost[q] == h.lost[q])
    && match move
       case Nothing => h2.sent[q] == h.sent[q] && h2.got[q] == h.got[q] && f2 == f
       case Through(m) => h2.sent[q] == h.sent[q] + [m] && h2.got[q] == h.got[q] + [m] && f2 == f
       case Queue(m) => h2.sent[q] == h.sent[q] + [m] && h2.got[q] == h.got[q] && f2 == f + [m]
       case Serve(m, first) =>
         && h2.sent[q] == h.sent[q] && h2.got[q] == h.got[q] + [m]
         && multiset(f) == multiset(f2) + multiset{m} && (first ==> f == [m] + f2)
       case Drop(m) =>
         && h2.sent[q] == h.sent[q] && h2.got[q] == h.got[q] && h2.lost[q] == h.lost[q] + [m]
         && multiset(f) == multiset(f2) + multiset{m}
  }

  /** Everything accepted was received, lost, or is still waiting. */
  ghost predicate Accounted(h: History, f: seq<Msg>, q: Pid) {
    && q in h.sent && q in h.got && q in h.lost
    && multiset(h.sent[q]) == multiset(h.got[q]) + multiset(h.lost[q]) + multiset(f)
  }

  lemma MovedConserves(h: History, h2: History, f: seq<Msg>, f2: seq<Msg>, q: Pid, move: Move)
    requires Moved(h, h2, f, f2, q, move) && Accounted(h, f, q)
    ensures Accounted(h2, f2, q)
  {
  }

  lemma MovedInOrder(h: History, h2: History, f: seq<Msg>, f2: seq<Msg>, q: Pid, move: Move)
    requires Moved(h, h2, f, f2, q, move) && h.sent[q] == h.got[q] + f
    requires (move.Through? ==> f == []) && (move.Serve? ==> move.first) && !move.Drop?
    ensures h2.sent[q] == h2.got[q] + f2
  {
  }

  ghost predicate Keyed(h: History, s: State) {
    h.sent.Keys == s.members.Keys && h.got.Keys == s.members.Keys && h.lost.Keys == s.members.Keys
  }

  lemma SendRefused(h: History, e: State, p: Pid)
    requires WellFormed(e) && e.th[e.cur].proc.Some? && p in e.members && Reaches(e, p, e.th[e.cur].proc.value)
    ensures Send(e, e.cur, Some(p)).0 == e && RecordSend(h, e, p, e) == h
  {
  }

  lemma SendRecorded(h: History, e: State, p: Pid, s1: State)
    requires WellFormed(e) && e.th[e.cur].proc.Some? && p in e.members && !Reaches(e, p, e.th[e.cur].proc.value)
    ensures var m := InRegs(e.cur, e.th[e.cur].ctx);
      match FindReceiver(Sending(e, e.cur, p), p, e.th[e.cur].proc)
      case Some(r) =>
        r < |s1.th| && InRegs(e.cur, s1.th[r].ctx) == m ==>
          RecordSend(h, e, p, s1) == h.(sent := Append(h.sent, p, m), got := Append(h.got, p, m))
      case None => RecordSend(h, e, p, s1) == h.(sent := Append(h.sent, p, m))
  {
  }

  lemma MovedThrough(h: History, f: seq<Msg>, p: Pid, q: Pid, m: Msg)
    requires q in h.sent && q in h.got && q in h.lost
    ensures var h2 := h.(sent := Append(h.sent, p, m), got := Append(h.got, p, m));
      Moved(h, h2, f, f, q, if q == p then Through(m) else Nothing)
  {
  }

  lemma MovedQueue(h: History, f: seq<Msg>, p: Pid, q: Pid, m: Msg)
    requires q in h.sent && q in h.got && q in h.lost
    ensures Moved(h, h.(sent := Append(h.sent, p, m)), f, if q == p then f + [m] else f, q, if q == p then Queue(m) else Nothing)
  {
  }

  lemma SendMoves(h: History, e: State, p: Pid, q: Pid) returns (move: Move)
    requires CanCall(e) && Keyed(h, e) && p in e.members && q in e.wait
    ensures var s1 := Send(e, e.cur, Some(p)).0; Inv(s1) && |s1.th| == |e.th| && s1.wait.Keys == e.wait.Keys
    ensures Keyed(RecordSend(h, e, p, Send(e, e.cur, Some(p)).0), e)
    ensures var s1 := Send(e, e.cur, Some(p)).0;
      Moved(h, RecordSend(h, e, p, s1), InFlight(e, q), InFlight(s1, q), q, move)
    ensures !move.Serve? && !move.Drop? && (move.Through? && ReceivesFromAny(e, q) ==> InFlight(e, q) == [])
  {
    hide Send, RecordSend, Moved, FindReceiver, Reaches, ReceivesFromAny, AllPlaced, NoMissedRendezvous, Membership, NoRepeats, IdsIn;
    var m := InRegs(e.cur, e.th[e.cur].ctx);
    var s1 := Send(e, e.cur, Some(p)).0;
    if Reaches(e, p, e.th[e.cur].proc.value) {
      SendRefused(h, e, p);
      move := Nothing;
      MovedNothing(h, InFlight(e, q), q);
    } else {
      SendRecorded(h, e, p, s1);
      match FindReceiver(Sending(e, e.cur, p), p, e.th[e.cur].proc)
      case Some(r) =>
        SendDelivers(e, p, r);
        move := if q == p then Through(m) else Nothing;
        MovedThrough(h, InFlight(e, q), p, q, m);
      case None =>
        SendQueues(e, p);
        move := if q == p then Queue(m) else Nothing;
        MovedQueue(h, InFlight(e, q), p, q, m);
    }
  }

  lemma MovedNothing(h: History, f: seq<Msg>, q: Pid)
    requires q in h.sent && q in h.got && q in h.lost
    ensures Moved(h, h, f, f, q, Nothing)
  {
  }

  lemma MovedServe(h: History, f: seq<Msg>, f2: seq<Msg>, me: Pid, q: Pid, m: Msg, first: bool)
    requires q in h.sent && q in h.got && q in h.lost
    requires q != me ==> f2 == f
    requires q == me ==> multiset(f) == multiset(f2) + multiset{m} && (first ==> f == [m] + f2)
    ensures Moved(h, h.(got := Append(h.got, me, m)), f, f2, q, if q == me then Serve(m, first) else Nothing)
  {
  }

  lemma MovedDrop(h: History, f: seq<Msg>, f2: seq<Msg>, me: Pid, q: Pid, m: Msg)
    requires q in h.sent && q in h.got && q in h.lost
    requires if q == me then multiset(f) == multiset(f2) + multiset{m} else f2 == f
    ensures Moved(h, h.(lost := Append(h.lost, me, m)), f, f2, q, if q == me then Drop(m) else Nothing)
  {
  }

  lemma ReceiveRecorded(h: History, e: State, from: Option<Pid>, s1: State)
    requires WellFormed(e) && e.th[e.cur].proc.Some? && e.cur < |s1.th|
    ensures match FindWaitingSender(e, e.th[e.cur].proc.value, from)
            case Some(t) =>
              RecordReceive(h, e, from, s1) == h.(got := Append(h.got, e.th[e.cur].proc.value, InRegs(t, s1.th[e.cur].ctx)))
            case None => RecordReceive(h, e, from, s1) == h
  {
  }

  lemma ReceiveMoves(h: History, e: State, from: Option<Pid>, q: Pid) returns (move: Move)
    requires CanCall(e) && Keyed(h, e) && q in e.wait
    ensures var s1 := Receive(e, e.cur, from); Inv(s1) && |s1.th| == |e.th| && s1.wait.Keys == e.wait.Keys
    ensures Keyed(RecordReceive(h, e, from, Receive(e, e.cur, from)), e)
    ensures var s1 := Receive(e, e.cur, from);
      Moved(h, RecordReceive(h, e, from, s1), InFlight(e, q), InFlight(s1, q), q, move)
    ensures !move.Through? && !move.Drop? && (move.Serve? ==> e.th[e.cur].proc == Some(q) && (from == None ==> move.first))
  {
    hide Receive, RecordReceive, Moved, FindWaitingSender, AllPlaced, NoMissedRendezvous, Membership, NoRepeats, IdsIn;
    var me := e.th[e.cur].proc.value;
    var s1 := Receive(e, e.cur, from);
    move := Nothing;
    match FindWaitingSender(e, me, from)
    case Some(t) =>
      ReceiveServes(e, from, t);
      ReceiveRecorded(h, e, from, s1);
      var m := InRegs(t, e.th[t].ctx);
      move := if q == me then Serve(m, from == None) else Nothing;
      MovedServe(h, InFlight(e, q), InFlight(s1, q), me, q, m, from == None);
    case None =>
      ReceiveBlocks(e, from);
      ReceiveRecorded(h, e, from, s1);
      MovedNothing(h, InFlight(e, q), q);
  }

  lemma NotifyRecorded(h: History, e: State, p: Pid)
    requires WellFormed(e) && e.th[e.cur].proc.Some? && p in e.members
    ensures SelectsQueued(e, p) ==>
      var u := FindBlockedSender(e, e.th[e.cur].proc, p).value;
      u < |e.th| && RecordNotify(h, e, p) == h.(lost := Append(h.lost, e.th[e.cur].proc.value, InRegs(u, e.th[u].ctx)))
    ensures !SelectsQueued(e, p) ==> RecordNotify(h, e, p) == h
  {
  }

  lemma NotifyCallMoves(h: History, e: State, p: Pid, q: Pid) returns (move: Move)
    requires CanCall(e) && Keyed(h, e) && p in e.members && q in e.wait && !SelectsWaitHead(e, p)
    ensures Keyed(RecordNotify(h, e, p), e)
    ensures var s1 := Notify(e, e.th[e.cur].proc, p); Inv(s1) && |s1.th| == |e.th| && s1.wait.Keys == e.wait.Keys
    ensures Moved(h, RecordNotify(h, e, p), InFlight(e, q), InFlight(Notify(e, e.th[e.cur].proc, p), q), q, move)
    ensures move.Nothing? || (move.Drop? && SelectsQueued(e, p) && e.th[e.cur].proc == Some(q))
  {
    hide Notify, RecordNotify, Moved, SelectsWaitHead, SelectsQueued, AllPlaced, NoMissedRendezvous, Membership, NoRepeats, IdsIn;
    var me := e.th[e.cur].proc.value;
    var s1 := Notify(e, Some(me), p);
    move := Nothing;
    NotifyRecorded(h, e, p);
    if SelectsQueued(e, p) {
      var u := NotifyDrops(e, p);
      var m := InRegs(u, e.th[u].ctx);
      move := if q == me then Drop(m) else Nothing;
      MovedDrop(h, InFlight(e, q), InFlight(s1, q), me, q, m);
    } else {
      NotifyMoves(e, p);
      MovedNothing(h, InFlight(e, q), q);
    }
  }

  /** The one change a call makes to the messages of a process. */
  lemma CallMoves(h: History, e: State, num: Word, dest: Word, q: Pid) returns (move: Move)
    requires CanCall(e) && Keyed(h, e) && q in e.wait
    requires num == SYSCALL_NOTIFY ==> dest != IPC_ANY && (dest in e.members ==> !SelectsWaitHead(e, dest))
    ensures Keyed(RecordCall(h, e, num, dest), e)
    ensures var s1 := Dispatch(e, num, dest).0; Inv(s1) && |s1.th| == |e.th| && q in s1.wait
    ensures var s1 := Dispatch(e, num, dest).0;
      Moved(h, RecordCall(h, e, num, dest), InFlight(e, q), InFlight(s1, q), q, move)
    ensures move.Through? && ReceivesFromAny(e, q) ==> InFlight(e, q) == []
    ensures move.Serve? ==> num == SYSCALL_RECEIVE && e.th[e.cur].proc == Some(q) && (dest == IPC_ANY ==> move.first)
    ensures move.Drop? ==> num == SYSCALL_NOTIFY && e.th[e.cur].proc == Some(q) && dest in e.members && SelectsQueued(e, dest)
  {
    move := Nothing;
    if dest == IPC_ANY || dest in e.members {
      if num == SYSCALL_SEND && dest != IPC_ANY {
        move := SendMoves(h, e, dest, q);
      } else if num == SYSCALL_RECEIVE {
        move := ReceiveMoves(h, e, Target(dest), q);
      } else if num == SYSCALL_NOTIFY {
        move := NotifyCallMoves(h, e, dest, q);
      }
    }
  }

  lemma EntryReady(s: State, a: Action, e: State, q: Pid)
    requires CanStep(s, a) && a.Call? && q in s.wait && e == AtEntry(s, a)
    ensures CanCall(e) && e.cur == s.cur && |e.th| == |s.th| && e.wait == s.wait && e.members == s.members
    ensures e.th[e.cur].proc == s.th[s.cur].proc && InFlight(e, q) == InFlight(s, q)
    ensures ReceivesFromAny(s, q) ==> ReceivesFromAny(e, q)
    ensures a.num == SYSCALL_NOTIFY ==> a.dest != IPC_ANY
    ensures a.num == SYSCALL_NOTIFY && a.dest in e.members ==>
      !SelectsWaitHead(e, a.dest) && (SelectsQueued(e, a.dest) <==> SelectsQueued(s, a.dest))
    ensures InRegs(e.cur, e.th[e.cur].ctx) == Msg(s.cur, s.th[s.cur].proc.value, a.m1, a.m2, a.m3)
  {
    hide InFlight, Reaches, Acyclic, AllPlaced, NoMissedRendezvous, Membership, NoRepeats, IdsIn, FindBlockedSender, FindReceiver;
    EntrySame(s, a);
    if a.num == SYSCALL_NOTIFY && a.dest in e.members { SameSelection2(s, e, a.dest); }
  }

  /** A thread of `q` notifies a sender that is still queued. */
  ghost predicate Drops(s: State, a: Action, q: Pid)
    requires WellFormed(s)
  {
    a.Call? && a.num == SYSCALL_NOTIFY && s.th[s.cur].proc == Some(q) && a.dest in s.members && SelectsQueued(s, a.dest)
  }

  /** The one change a step makes to the messages of a process. */
  lemma StepMoves(h: History, s: State, a: Action, q: Pid) returns (move: Move)
    requires CanStep(s, a) && q in s.wait && Keyed(h, s)
    ensures Keyed(Recorded(h, s, a), s) && WellFormed(Step(s, a)) && q in Step(s, a).wait
    ensures Moved(h, Recorded(h, s, a), InFlight(s, q), InFlight(Step(s, a), q), q, move)
    ensures move.Through? && ReceivesFromAny(s, q) ==> InFlight(s, q) == []
    ensures move.Serve? ==>
      a.Call? && a.num == SYSCALL_RECEIVE && s.th[s.cur].proc == Some(q) && (a.dest == IPC_ANY ==> move.first)
    ensures move.Drop? ==> Drops(s, a, q)
  {
    if a.Tick? {
      move := Nothing;
      ElectKeeps(s);
      Untouched(s, Elect(s), q);
    } else {
      var e := AtEntry(s, a);
      EntryReady(s, a, e, q);
      HandleUnfolds(s, a, e);
      move := CallMoves(h, e, a.num, a.dest, q);
      var (s1, res) := Dispatch(e, a.num, a.dest);
      ReturnSame(s1, s.cur, res, q);
    }
  }

  lemma HandleUnfolds(s: State, a: Action, e: State)
    requires CanStep(s, a) && a.Call? && e == AtEntry(s, a) && WellFormed(e) && e.th[e.cur].proc.Some?
    ensures var (s1, res) := Dispatch(e, a.num, a.dest);
      Step(s, a) == if s.cur < |s1.th| then SetReg(s1, s.cur, s1.th[s.cur].ctx.(eax := res.Code())) else s1
  {
  }

  lemma SameSelection2(s: State, e: State, p: Pid)
    requires CanCall(s) && p in s.members && WellFormed(e)
    requires e.cur == s.cur && e.members == s.members && e.wait == s.wait && |e.th| == |s.th|
    requires forall u :: 0 <= u < |s.th| ==> e.th[u] == s.th[u].(ctx := e.th[u].ctx)
    ensures SelectsQueued(e, p) <==> SelectsQueued(s, p)
    ensures SelectsWaitHead(e, p) <==> SelectsWaitHead(s, p)
  {
    SameBlockedSender(s, e, s.members[p], s.th[s.cur].proc);
  }

  // ---- whole runs ----

  /** The history of the first `i` actions of a run. */
  ghost function HistoryOf(trace: seq<State>, acts: seq<Action>, i: nat): History
    requires IsRun(trace, acts) && i < |trace|
  {
    if i == 0 then
      var none := map p | p in trace[0].members :: [];
      History(none, none, none)
    else Recorded(HistoryOf(trace, acts, i - 1), trace[i - 1], acts[i - 1])
  }

  /** What no call changes, and the only way a thread starts to receive. */
  ghost predicate Frame(e: State, s1: State, num: Word, dest: Pid) {
    && s1.members == e.members && s1.wait.Keys == e.wait.Keys && |s1.th| == |e.th|
    && (forall u :: 0 <= u < |e.th| ==> s1.th[u].proc == e.th[u].proc)
    && (forall u :: 0 <= u < |e.th| && s1.th[u].receiving ==>
          (e.th[u].receiving && s1.th[u].recvFrom == e.th[u].recvFrom)
          || (num == SYSCALL_RECEIVE && u == e.cur && s1.th[u].recvFrom == Target(dest)))
  }

  lemma DeliverFrame(e: State, t: Tid, p: Pid, r: Tid, num: Word)
    requires t < |e.th| && r < |e.th|
    ensures Frame(e, Elect(Deliver(e, t, p, r)), num, p)
  {
  }

  lemma EnqueueFrame(e: State, t: Tid, p: Pid, num: Word)
    requires t < |e.th| && p in e.wait
    ensures Frame(e, Elect(Enqueue(e, t, p)), num, p)
  {
  }

  lemma SendFrame(e: State, p: Pid)
    requires WellFormed(e) && e.th[e.cur].proc.Some? && p in e.members
    ensures Frame(e, Send(e, e.cur, Some(p)).0, SYSCALL_SEND, p)
  {
    match FindReceiver(Sending(e, e.cur, p), p, e.th[e.cur].proc)
    case Some(r) => DeliverFrame(e, e.cur, p, r, SYSCALL_SEND);
    case None => EnqueueFrame(e, e.cur, p, SYSCALL_SEND);
  }

  lemma ReceiveFrame(e: State, dest: Word)
    requires WellFormed(e) && e.th[e.cur].proc.Some?
    ensures Frame(e, Receive(e, e.cur, Target(dest)), SYSCALL_RECEIVE, dest)
  {
  }

  lemma NotifyFrame(e: State, p: Pid)
    requires WellFormed(e) && e.th[e.cur].proc.Some? && p in e.members
    ensures Frame(e, Notify(e, e.th[e.cur].proc, p), SYSCALL_NOTIFY, p)
  {
  }

  lemma DispatchFrame(e: State, num: Word, dest: Word)
    requires WellFormed(e) && e.th[e.cur].proc.Some?
    requires num == SYSCALL_NOTIFY ==> dest != IPC_ANY
    ensures Frame(e, Dispatch(e, num, dest).0, num, dest)
  {
    if dest == IPC_ANY || dest in e.members {
      if num == SYSCALL_SEND && dest != IPC_ANY {
        SendFrame(e, dest);
      } else if num == SYSCALL_RECEIVE {
        ReceiveFrame(e, dest);
      } else if num == SYSCALL_NOTIFY {
        NotifyFrame(e, dest);
      }
    }
  }

  lemma ShapeWithRegs(s: State, t: Tid, regs: Regs)
    requires t < |s.th|
    ensures var s2 := SetReg(s, t, regs);
      s2.members == s.members && s2.wait == s.wait && |s2.th| == |s.th|
      && forall u :: 0 <= u < |s.th| ==> s2.th[u].proc == s.th[u].proc
  {
  }

  lemma StepMembers(s: State, a: Action)
    requires CanStep(s, a)
    ensures Step(s, a).members == s.members && Step(s, a).wait.Keys == s.wait.Keys && |Step(s, a).th| == |s.th|
    ensures forall u :: 0 <= u < |s.th| ==> Step(s, a).th[u].proc == s.th[u].proc
  {
    if a.Call? {
      var l := Loaded(s, a);
      var e := AtEntry(s, a);
      EntrySame(s, a);
      HandleUnfolds(s, a, e);
      ShapeWithRegs(s, s.cur, l.th[s.cur].ctx);
      ShapeWithRegs(l, s.cur, e.th[s.cur].ctx);
      hide Handle, Step, Dispatch, SetReg, Acyclic, AllPlaced, NoMissedRendezvous, Membership, NoRepeats;
      DispatchFrame(e, a.num, a.dest);
      var (s1, res) := Dispatch(e, a.num, a.dest);
      ShapeWithRegs(s1, s.cur, s1.th[s.cur].ctx.(eax := res.Code()));
    }
  }

  /** One step keeps every message accounted for. */
  lemma StepConserves(h: History, s: State, a: Action, q: Pid)
    requires CanStep(s, a) && q in s.wait && Keyed(h, s) && Accounted(h, InFlight(s, q), q)
    ensures Keyed(Recorded(h, s, a), s) && WellFormed(Step(s, a)) && q in Step(s, a).wait
    ensures Accounted(Recorded(h, s, a), InFlight(Step(s, a), q), q)
    ensures !Drops(s, a, q) ==> Recorded(h, s, a).lost[q] == h.lost[q]
  {
    var move := StepMoves(h, s, a, q);
    MovedConserves(h, Recorded(h, s, a), InFlight(s, q), InFlight(Step(s, a), q), q, move);
  }

  /** In the first `i` actions no thread of `q` notifies a sender that is still queued. */
  ghost predicate NeverDrops(trace: seq<State>, acts: seq<Action>, q: Pid, i: nat)
    requires IsRun(trace, acts) && i < |trace|
  {
    forall j :: 0 <= j < i ==> !Drops(trace[j], acts[j], q)
  }

  /**
    In every reachable state, and for every process: the messages accepted for it are
    the ones its threads received, the ones they dropped by a notify, and the ones still
    waiting, each unchanged. None is dropped unless a notify selects a queued sender.
   */
  lemma {:induction false} RunConserves(trace: seq<State>, acts: seq<Action>, i: nat, q: Pid)
    requires IsRun(trace, acts) && Initial(trace[0]) && i < |trace| && q in trace[0].members
    ensures Safe(trace[i]) && q in trace[i].wait && Keyed(HistoryOf(trace, acts, i), trace[i])
    ensures var h := HistoryOf(trace, acts, i);
      multiset(h.sent[q]) == multiset(h.got[q]) + multiset(h.lost[q]) + multiset(InFlight(trace[i], q))
    ensures NeverDrops(trace, acts, q, i) ==> HistoryOf(trace, acts, i).lost[q] == []
  {
    InitialSafe(trace[0]);
    RunSafe(trace, acts, i);
    if i > 0 {
      RunConserves(trace, acts, i - 1, q);
      StepMembers(trace[i - 1], acts[i - 1]);
      StepConserves(HistoryOf(trace, acts, i - 1), trace[i - 1], acts[i - 1], q);
    }
  }

  /** In the first `i` actions no thread of `q` asks for the message of one sender only. */
  ghost predicate AsksForAny(trace: seq<State>, acts: seq<Action>, q: Pid, i: nat)
    requires IsRun(trace, acts) && i < |trace|
  {
    forall j :: 0 <= j < i && acts[j].Call? && acts[j].num == SYSCALL_RECEIVE && trace[j].th[trace[j].cur].proc == Some(q) ==>
      acts[j].dest == IPC_ANY
  }

  lemma AnyFramed(e: State, s1: State, num: Word, dest: Word, q: Pid)
    requires Frame(e, s1, num, dest) && ReceivesFromAny(e, q) && e.cur < |e.th|
    requires num == SYSCALL_RECEIVE && e.th[e.cur].proc == Some(q) ==> dest == IPC_ANY
    ensures ReceivesFromAny(s1, q)
  {
  }

  lemma AnyWithRegs(s: State, t: Tid, regs: Regs, q: Pid)
    requires t < |s.th| && ReceivesFromAny(s, q)
    ensures ReceivesFromAny(SetReg(s, t, regs), q)
  {
  }

  lemma AnyKept(s: State, a: Action, q: Pid)
    requires CanStep(s, a) && ReceivesFromAny(s, q)
    requires a.Call? && a.num == SYSCALL_RECEIVE && s.th[s.cur].proc == Some(q) ==> a.dest == IPC_ANY
    ensures ReceivesFromAny(Step(s, a), q)
  {
    if a.Call? {
      var l := Loaded(s, a);
      var e := AtEntry(s, a);
      EntrySame(s, a);
      HandleUnfolds(s, a, e);
      DispatchFrame(e, a.num, a.dest);
      hide ReceivesFromAny, Frame, Dispatch, Step, Handle, Acyclic, AllPlaced, NoMissedRendezvous, Membership, NoRepeats;
      AnyWithRegs(s, s.cur, l.th[s.cur].ctx, q);
      AnyWithRegs(l, s.cur, e.th[s.cur].ctx, q);
      var (s1, res) := Dispatch(e, a.num, a.dest);
      AnyFramed(e, s1, a.num, a.dest, q);
      if s.cur < |s1.th| { AnyWithRegs(s1, s.cur, s1.th[s.cur].ctx.(eax := res.Code()), q); }
    }
  }

  lemma StepInOrder(h: History, s: State, a: Action, q: Pid)
    requires CanStep(s, a) && Keyed(h, s) && InOrder(h, s, q)
    requires a.Call? && a.num == SYSCALL_RECEIVE && s.th[s.cur].proc == Some(q) ==> a.dest == IPC_ANY
    requires !Drops(s, a, q)
    ensures WellFormed(Step(s, a)) && InOrder(Recorded(h, s, a), Step(s, a), q)
  {
    AnyKept(s, a, q);
    var move := StepMoves(h, s, a, q);
    MovedInOrder(h, Recorded(h, s, a), InFlight(s, q), InFlight(Step(s, a), q), q, move);
  }

  /** A process that always receives from anyone gets its messages in the order they were accepted. */
  lemma {:induction false} RunInOrder(trace: seq<State>, acts: seq<Action>, q: Pid, i: nat)
    requires IsRun(trace, acts) && Initial(trace[0]) && i < |trace| && q in trace[0].members
    requires AsksForAny(trace, acts, q, i) && NeverDrops(trace, acts, q, i)
    ensures Safe(trace[i]) && InOrder(HistoryOf(trace, acts, i), trace[i], q)
  {
    hide Inv, Acyclic, Reaches, Step, Recorded;
    RunConserves(trace, acts, i, q);
    if i > 0 {
      RunInOrder(trace, acts, q, i - 1);
      RunConserves(trace, acts, i - 1, q);
      StepInOrder(HistoryOf(trace, acts, i - 1), trace[i - 1], acts[i - 1], q);
    }
  }
}
