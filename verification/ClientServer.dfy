/**
  The two user programs of srv/: one server that receives a request from anyone, notifies
  its sender and sends a reply, and any number of clients that each send a request, receive
  the reply and notify the server. They run on the kernel of IpcState under any clock.
 */
module ClientServer {
  import opened SeqLists
  import opened IpcState
  import opened IpcInvariant
  import opened IpcGraph
  import opened IpcRuns
  import opened IpcMessages
  import opened IpcViews
  import opened IpcEffects

  const SERVER: Pid := 1

  /** The next call of the server loop, or that the loop has ended. */
  datatype ServerPc = ToReceive | ToAcknowledge | ToReply | ServerEnd

  /** The next call of a client's loop around ipc_sendrec, or that the loop has ended. */
  datatype ClientPc = ToSend | ToCollect | ToThank | ClientEnd

  /**
    `from` is the field of the server's message that names the client to answer, `called`
    the programs that have made a call.
   */
  datatype World = World(
    k: State, h: History,
    sv: Tid, clients: set<Tid>,
    spc: ServerPc, from: Word, cpc: map<Tid, ClientPc>,
    called: set<Tid>)

  /** A clock interrupt, or the next call of the running program with three data words. */
  datatype Choice = Clock | Run(m1: Word, m2: Word, m3: Word)

  ghost predicate Runs(w: World)
    requires WellFormed(w.k)
  {
    || (w.k.cur == w.sv && w.spc != ServerEnd)
    || (w.k.cur != w.sv && w.k.cur in w.clients && w.k.cur in w.cpc && w.cpc[w.k.cur] != ClientEnd)
  }

  /** The call the running program makes next. */
  ghost function Request(w: World, ch: Choice): (a: Action)
    requires WellFormed(w.k) && Runs(w) && ch.Run?
    ensures a.Call?
  {
    if w.k.cur == w.sv then
      match w.spc
      case ToReceive => Call(SYSCALL_RECEIVE, IPC_ANY, ch.m1, ch.m2, ch.m3)
      case ToAcknowledge => Call(SYSCALL_NOTIFY, w.k.th[w.sv].ctx.esi, ch.m1, ch.m2, ch.m3)
      case ToReply => Call(SYSCALL_SEND, w.from, ch.m1, ch.m2, ch.m3)
    else
      match w.cpc[w.k.cur]
      case ToSend => Call(SYSCALL_SEND, SERVER, ch.m1, ch.m2, ch.m3)
      case ToCollect => Call(SYSCALL_RECEIVE, SERVER, ch.m1, ch.m2, ch.m3)
      case ToThank => Call(SYSCALL_NOTIFY, SERVER, ch.m1, ch.m2, ch.m3)
  }

  /** The program counter moves on with the call. The result is read when the program goes on: see Stops. */
  ghost function Advance(w: World, k2: State): World
    requires WellFormed(w.k) && Runs(w)
  {
    var t := w.k.cur;
    var w2 := w.(k := k2, called := w.called + {t});
    if t == w.sv then
      match w.spc
      case ToReceive => w2.(spc := ToAcknowledge)
      case ToAcknowledge => w2.(spc := ToReply, from := w.k.th[w.sv].ctx.esi)
      case ToReply => w2.(spc := ToReceive)
    else
      match w.cpc[t]
      case ToSend => w2.(cpc := w.cpc[t := ToCollect])
      case ToCollect => w2.(cpc := w.cpc[t := ToThank])
      case ToThank => w2.(cpc := w.cpc[t := ToSend])
  }

  /**
    The running program goes on after a call and finds in EAX that it failed, which ends its
    loop. The server looks at the result of its receive only.
   */
  ghost predicate Stops(w: World)
    requires WellFormed(w.k)
  {
    w.k.cur in w.called && (w.k.cur == w.sv ==> w.spc == ToAcknowledge) && w.k.th[w.k.cur].ctx.eax != IPC_SUCCESS.Code()
  }

  ghost function Stopped(w: World): World {
    if w.k.cur == w.sv then w.(spc := ServerEnd) else w.(cpc := w.cpc[w.k.cur := ClientEnd])
  }

  /** The kernel serves what the running program asks for, and a notify selects no queued thread. */
  ghost predicate CanNext(w: World, ch: Choice) {
    WellFormed(w.k) && (ch.Run? ==> Runs(w) && (Stops(w) || Served(w.k, Request(w, ch))))
  }

  ghost predicate Served(k: State, a: Action)
    requires WellFormed(k) && a.Call?
  {
    Enabled(k, a) && (a.num == SYSCALL_NOTIFY && a.dest in k.members ==> !SelectsQueued(k, a.dest))
  }

  ghost function Next(w: World, ch: Choice): World
    requires CanNext(w, ch)
  {
    if ch.Clock? then w.(k := Step(w.k, Tick))
    else if Stops(w) then Stopped(w)
    else
      var a := Request(w, ch);
      Advance(w, Step(w.k, a)).(h := Recorded(w.h, w.k, a))
  }

  // ---- what holds between the programs ----

  /** One server thread, one thread per client process, and only idle threads besides. */
  ghost predicate Cast(w: World) {
    && w.k.cur < |w.k.th|
    && w.sv < |w.k.th| && w.k.th[w.sv].proc == Some(SERVER) && SERVER in w.k.members
    && w.cpc.Keys == w.clients && w.sv !in w.clients
    && (forall c :: c in w.clients ==> c < |w.k.th| && w.k.th[c].proc.Some? && w.k.th[c].proc.value in w.k.members)
    && (forall t, u :: 0 <= t < |w.k.th| && 0 <= u < |w.k.th| && w.k.th[t].proc.Some? && w.k.th[t].proc == w.k.th[u].proc ==> t == u)
    && (forall t :: 0 <= t < |w.k.th| && w.k.th[t].proc.Some? ==> t == w.sv || t in w.clients)
  }

  ghost predicate Quiet(th: Thread) {
    th.run == Ready && !th.sending && !th.receiving
  }

  /** A client whose request the server has not taken up, or has answered. */
  ghost predicate NotServed(th: Thread, pc: ClientPc) {
    match pc
    case ToSend => Quiet(th)
    case ToCollect => th.run == Blocked && th.sending && !th.receiving && th.sendTo == Some(SERVER) && Some(th.ctx.esi) == th.proc
    case ToThank => Quiet(th)
    case ClientEnd => false
  }

  ghost predicate Unnotified(th: Thread, pc: ClientPc) {
    pc == ToCollect && th.run == Blocked && !th.sending && !th.receiving && th.sendTo == Some(SERVER)
  }

  ghost predicate Released(th: Thread, pc: ClientPc) {
    pc == ToCollect && Quiet(th)
  }

  ghost predicate Awaiting(th: Thread, pc: ClientPc) {
    pc == ToThank && th.run == Blocked && th.receiving && !th.sending && th.recvFrom == Some(SERVER)
  }

  ghost predicate Answered(th: Thread, pc: ClientPc) {
    pc == ToThank && Quiet(th)
  }

  /** The server while it serves nobody. */
  ghost predicate Idling(th: Thread, pc: ServerPc) {
    || (pc == ToReceive && Quiet(th))
    || (pc == ToAcknowledge && th.run == Blocked && th.receiving && !th.sending && th.recvFrom == None)
  }

  /** The server and the client it serves. */
  ghost predicate Serving(th: Thread, pc: ServerPc, from: Word, client: Thread, cpc: ClientPc) {
    match pc
    case ToAcknowledge =>
      Quiet(th) && Some(th.ctx.esi) == client.proc && (Unnotified(client, cpc) || Released(client, cpc) || Awaiting(client, cpc))
    case ToReply =>
      Quiet(th) && Some(from) == client.proc && (Released(client, cpc) || Awaiting(client, cpc))
    case ToReceive =>
      && th.run == Blocked && !th.receiving && th.sendTo == client.proc
      && (if th.sending then th.ctx.esi == SERVER && Released(client, cpc) else Answered(client, cpc))
    case ServerEnd => false
  }

  /** The reply to the client being served is still to be delivered. */
  ghost predicate Owed(w: World, c: Tid, served: Option<Tid>)
    requires w.sv < |w.k.th|
  {
    served == Some(c) && !(w.spc == ToReceive && !w.k.th[w.sv].sending)
  }

  ghost predicate Agreement(w: World, served: Option<Tid>)
    requires Cast(w)
  {
    && (forall c :: c in w.clients && served != Some(c) ==> NotServed(w.k.th[c], w.cpc[c]))
    && match served
       case None => Idling(w.k.th[w.sv], w.spc)
       case Some(o) => o in w.clients && Serving(w.k.th[w.sv], w.spc, w.from, w.k.th[o], w.cpc[o])
  }

  // ---- the ledger of requests and replies ----

  /** How many of the messages come from thread `t`. */
  ghost function CountFrom(ms: seq<Msg>, t: Tid): nat {
    if ms == [] then 0 else CountFrom(ms[..|ms| - 1], t) + if ms[|ms| - 1].tid == t then 1 else 0
  }

  /** As many replies as requests taken, but for the one owed. */
  ghost predicate Account(w: World, served: Option<Tid>, c: Tid)
    requires Cast(w) && SERVER in w.h.got && c in w.clients
  {
    var p := w.k.th[c].proc.value;
    && p in w.h.got
    && CountFrom(w.h.got[SERVER], c) == |w.h.got[p]| + (if Owed(w, c, served) then 1 else 0)
    && forall m :: m in w.h.got[p] ==> m.tid == w.sv && m.from == SERVER
  }

  ghost predicate Ledger(w: World, served: Option<Tid>)
    requires Cast(w)
  {
    SERVER in w.h.got && forall c :: c in w.clients ==> Account(w, served, c)
  }

  /** Whoever has made a call finds, or will find, that it succeeded. */
  ghost predicate Results(w: World) {
    forall t :: t in w.called ==> t < |w.k.th| && w.k.th[t].ctx.eax == IPC_SUCCESS.Code()
  }

  ghost predicate Good(w: World, served: Option<Tid>) {
    Safe(w.k) && Cast(w) && Agreement(w, served) && Ledger(w, served) && Results(w)
  }

  /** The next call of the program that runs, once the one it makes is served. */
  ghost predicate Resumed(w: World, w2: World) {
    var t := w.k.cur;
    if t == w.sv then
      && w2.cpc == w.cpc
      && w2.spc == match w.spc case ToReceive => ToAcknowledge case ToAcknowledge => ToReply case _ => ToReceive
    else
      && t in w.cpc && w2.spc == w.spc
      && w2.cpc == w.cpc[t := match w.cpc[t] case ToSend => ToCollect case ToCollect => ToThank case _ => ToSend]
  }

  /** What that call does to the service and to the queue of requests. */
  ghost predicate Moves(w: World, w2: World, served: Option<Tid>, served2: Option<Tid>)
    requires w.sv < |w.k.th|
  {
    var t := w.k.cur;
    && SERVER in w.k.wait && SERVER in w2.k.wait && Resumed(w, w2)
    && var (q, q2) := (w.k.wait[SERVER], w2.k.wait[SERVER]);
      if t == w.sv then
        if w.spc == ToReceive then
          served == None && (if q == [] then served2 == None && q2 == q else served2 == Some(q[0]) && q2 == q[1..])
        else served.Some? && served2 == served && q2 == q
      else
        t in w.clients && t in w.cpc &&
        match w.cpc[t]
        case ToSend =>
          || (served2 == served && q2 == q + [t])
          || (served == None && served2 == Some(t) && q2 == q && w.k.th[w.sv].IsReceiving())
        case ToCollect => served == Some(t) && (served2 == served || served2 == None) && q2 == q
        case _ => served2 == (if served == Some(t) then None else served) && q2 == q
  }

  /** A call blocks nobody but the caller, and requests reach the server only when it takes one up. */
  ghost predicate Calm(w: World, w2: World, served: Option<Tid>) {
    && w2.sv == w.sv && w2.clients == w.clients && |w2.k.th| == |w.k.th|
    && (forall u :: 0 <= u < |w.k.th| && u != w.k.cur && w.k.th[u].run == Ready ==> w2.k.th[u].run == Ready)
    && SERVER in w.h.got && SERVER in w2.h.got
    && (served.Some? ==> w2.h.got[SERVER] == w.h.got[SERVER])
  }

  // ---- one step ----

  lemma CountAppend(ms: seq<Msg>, m: Msg, t: Tid)
    ensures CountFrom(ms + [m], t) == CountFrom(ms, t) + if m.tid == t then 1 else 0
  {
    assert (ms + [m])[..|ms|] == ms;
  }

  /** A program that runs is ready, and has not ended. */
  lemma Runner(w: World, served: Option<Tid>)
    requires Good(w, served)
    ensures Quiet(w.k.th[w.k.cur])
  {
    hide Agreement, Ledger, Cast;
    assert Placed(w.k, w.k.cur);
  }

  lemma NobodyEnds(w: World, served: Option<Tid>)
    requires Cast(w) && Agreement(w, served)
    ensures w.spc != ServerEnd && forall c :: c in w.clients ==> w.cpc[c] != ClientEnd
  {
    forall c | c in w.clients ensures w.cpc[c] != ClientEnd {
      if served != Some(c) { assert NotServed(w.k.th[c], w.cpc[c]); }
    }
  }

  lemma SenderOf(s: State, p: Pid, n: Pid) returns (t: Tid)
    requires Inv(s) && Edge(s, p, n)
    ensures t < |s.th| && s.th[t].proc == Some(p) && s.th[t].sending && s.th[t].sendTo == Some(n)
  {
    t :| t in s.members[p] && t < |s.th| && s.th[t].IsSending() && s.th[t].sendTo == Some(n);
  }

  lemma NoEdge(w: World, c: Tid, n: Pid)
    requires Inv(w.k) && Cast(w) && c in w.clients && !w.k.th[c].sending
    ensures !Edge(w.k, w.k.th[c].proc.value, n)
  {
  }

  /** No chain of sends starts at a client that is not waiting to send. */
  lemma ClientChain(w: World, c: Tid, p: Pid)
    requires Inv(w.k) && Cast(w) && c in w.clients && !w.k.th[c].sending
    ensures !Reaches(w.k, w.k.th[c].proc.value, p)
  {
    if Reaches(w.k, w.k.th[c].proc.value, p) {
      var n := ReachesFirst(w.k, w.k.th[c].proc.value, p);
      NoEdge(w, c, n);
    }
  }

  /** A chain of sends that starts at the server ends at the client whose reply is waiting. */
  lemma ServerChain(w: World, served: Option<Tid>, p: Pid)
    requires Inv(w.k) && Cast(w) && Agreement(w, served) && Reaches(w.k, SERVER, p)
    ensures served.Some? && served.value < |w.k.th| && w.k.th[served.value].proc == Some(p)
  {
    hide Reaches, NoRepeats, AllPlaced, NoMissedRendezvous;
    var n := ReachesFirst(w.k, SERVER, p);
    var t := SenderOf(w.k, SERVER, n);
    SameThread(w, t, w.sv);
    if n != p { ClientChain(w, served.value, p); }
  }

  /** If nothing a notify would wake is queued, then it selects nothing queued. */
  lemma SelectsNone(s: State, p: Pid)
    requires CanCall(s) && p in s.members
    requires forall u :: 0 <= u < |s.th| && s.th[u].proc == Some(p) && Wakeable(s.th[u], s.th[s.cur].proc) ==> !s.th[u].sending
    ensures !SelectsQueued(s, p)
  {
    match FindBlockedSender(s, s.th[s.cur].proc, p)
    case Some(u) => assert u in s.members[p];
    case None =>
  }

  /** What the cast says of the server and its clients. */
  lemma CastFacts(w: World)
    requires Cast(w)
    ensures w.sv < |w.k.th| && w.sv !in w.clients && w.k.th[w.sv].proc == Some(SERVER) && w.cpc.Keys == w.clients
    ensures forall c :: c in w.clients ==> c < |w.k.th| && w.k.th[c].proc.Some? && w.k.th[c].proc != Some(SERVER)
  {
  }

  /** A process names its thread. */
  lemma SameThread(w: World, t: Tid, u: Tid)
    requires Cast(w) && t < |w.k.th| && u < |w.k.th| && w.k.th[t].proc.Some? && w.k.th[t].proc == w.k.th[u].proc
    ensures t == u
  {
  }

  lemma InCast(w: World, t: Tid)
    requires Cast(w) && t < |w.k.th| && w.k.th[t].proc.Some?
    ensures t == w.sv || t in w.clients
  {
  }

  /** The parts of the world a call of thread `t` that also touches `u` does not change. */
  ghost predicate Around(w: World, w2: World, t: Tid, u: Tid) {
    && w2.sv == w.sv && w2.clients == w.clients && OnlyChanged(w.k, w2.k, t, u)
    && t < |w.k.th| && u < |w.k.th| && w2.k.th[t].proc == w.k.th[t].proc && w2.k.th[u].proc == w.k.th[u].proc
    && w2.cpc.Keys == w.cpc.Keys && (forall c :: c in w.cpc && c != t ==> w2.cpc[c] == w.cpc[c])
    && w2.k.cur < |w2.k.th|
  }

  lemma CastKept(w: World, w2: World, t: Tid, u: Tid)
    requires Cast(w) && Around(w, w2, t, u)
    ensures Cast(w2)
  {
  }

  /** Clients that are neither running nor touched stay as they were. */
  lemma OthersKept(w: World, w2: World, t: Tid, u: Tid, served: Option<Tid>, c: Tid)
    requires Cast(w) && Around(w, w2, t, u) && c in w.clients && c != t && c != u
    requires served != Some(c) ==> NotServed(w.k.th[c], w.cpc[c])
    ensures served != Some(c) ==> NotServed(w2.k.th[c], w2.cpc[c])
  {
  }

  /** The agreement of the threads a call touched is enough: the others stay as they were. */
  lemma AgreeAfter(w: World, w2: World, t: Tid, u: Tid, served: Option<Tid>, served2: Option<Tid>)
    requires Cast(w) && Around(w, w2, t, u) && Agreement(w, served) && Cast(w2)
    requires forall c :: c in w.clients && c != t && c != u && served == Some(c) ==> served2 == Some(c)
    requires forall c :: c in w2.clients && (c == t || c == u) && served2 != Some(c) ==> NotServed(w2.k.th[c], w2.cpc[c])
    requires match served2
             case None => Idling(w2.k.th[w2.sv], w2.spc)
             case Some(o) => o in w2.clients && Serving(w2.k.th[w2.sv], w2.spc, w2.from, w2.k.th[o], w2.cpc[o])
    ensures Agreement(w2, served2)
  {
    hide NotServed, Idling, Serving, Cast;
    CastFacts(w);
    forall c | c in w2.clients && served2 != Some(c) ensures NotServed(w2.k.th[c], w2.cpc[c]) {
      if c != t && c != u { OthersKept(w, w2, t, u, served, c); }
    }
  }

  lemma CastSame(w: World, w2: World, t: Tid, u: Tid, c: Tid)
    requires Cast(w) && Around(w, w2, t, u) && c in w.clients
    ensures c < |w.k.th| && c < |w2.k.th| && w2.k.th[c].proc == w.k.th[c].proc && w.k.th[c].proc.Some?
    ensures w.k.th[c].proc.value != SERVER && w2.sv == w.sv && c in w2.clients && c != w.sv
  {
  }

  /** The books when a call delivers nothing. */
  lemma LedgerKept(w: World, w2: World, t: Tid, u: Tid, served: Option<Tid>, served2: Option<Tid>)
    requires Cast(w) && Around(w, w2, t, u) && Ledger(w, served) && w2.h.got == w.h.got
    requires forall c :: c in w.clients ==> (Owed(w2, c, served2) <==> Owed(w, c, served))
    ensures Cast(w2) && Ledger(w2, served2)
  {
    CastKept(w, w2, t, u);
    hide Account, Cast, Owed, CountFrom, OnlyChanged;
    forall c | c in w2.clients ensures Account(w2, served2, c) {
      CastSame(w, w2, t, u, c);
      AccountKept(w, w2, served, served2, c);
    }
  }

  lemma AccountKept(w: World, w2: World, served: Option<Tid>, served2: Option<Tid>, c: Tid)
    requires Cast(w) && Cast(w2) && SERVER in w.h.got && c in w.clients && c in w2.clients
    requires w2.k.th[c].proc == w.k.th[c].proc && w2.sv == w.sv && w2.h.got == w.h.got
    requires (Owed(w2, c, served2) <==> Owed(w, c, served)) && Account(w, served, c)
    ensures Account(w2, served2, c)
  {
    hide Cast, Owed, CountFrom;
  }

  /** The books when a request of `o` is delivered to the server. */
  lemma LedgerRequest(w: World, w2: World, t: Tid, u: Tid, o: Tid, m: Msg)
    requires Cast(w) && Around(w, w2, t, u) && Ledger(w, None) && o in w.clients && m.tid == o
    requires w2.h.got == Append(w.h.got, SERVER, m) && Owed(w2, o, Some(o))
    ensures Cast(w2) && Ledger(w2, Some(o))
  {
    CastKept(w, w2, t, u);
    hide Account, Cast, Owed, CountFrom, OnlyChanged;
    forall c | c in w2.clients ensures Account(w2, Some(o), c) {
      CastSame(w, w2, t, u, c);
      AccountRequest(w, w2, o, m, c);
    }
  }

  lemma AccountRequest(w: World, w2: World, o: Tid, m: Msg, c: Tid)
    requires Cast(w) && Cast(w2) && SERVER in w.h.got && c in w.clients && c in w2.clients && m.tid == o
    requires w2.k.th[c].proc == w.k.th[c].proc && w.k.th[c].proc.value != SERVER && w2.sv == w.sv
    requires w2.h.got == Append(w.h.got, SERVER, m) && Owed(w2, o, Some(o)) && Account(w, None, c)
    ensures Account(w2, Some(o), c)
  {
    hide Cast, CountFrom;
    CountAppend(w.h.got[SERVER], m, c);
  }

  /** The books when the reply to `o` is delivered. */
  lemma LedgerReply(w: World, w2: World, t: Tid, u: Tid, o: Tid, m: Msg, served2: Option<Tid>)
    requires Cast(w) && Around(w, w2, t, u) && Ledger(w, Some(o)) && o in w.clients && m.tid == w.sv && m.from == SERVER
    requires w2.h.got == Append(w.h.got, w.k.th[o].proc.value, m) && Owed(w, o, Some(o))
    requires forall c :: c in w.clients ==> !Owed(w2, c, served2)
    ensures Cast(w2) && Ledger(w2, served2)
  {
    CastKept(w, w2, t, u);
    hide Account, Cast, Owed, CountFrom, OnlyChanged;
    CastSame(w, w2, t, u, o);
    forall c | c in w2.clients ensures Account(w2, served2, c) {
      CastSame(w, w2, t, u, c);
      AccountReply(w, w2, o, m, served2, c);
    }
  }

  lemma AccountReply(w: World, w2: World, o: Tid, m: Msg, served2: Option<Tid>, c: Tid)
    requires Cast(w) && Cast(w2) && SERVER in w.h.got && o in w.clients && c in w.clients && c in w2.clients
    requires w2.k.th[c].proc == w.k.th[c].proc && w.k.th[o].proc.value != SERVER && w2.sv == w.sv
    requires w2.h.got == Append(w.h.got, w.k.th[o].proc.value, m) && m.tid == w.sv && m.from == SERVER
    requires Owed(w, o, Some(o)) && !Owed(w2, c, served2) && Account(w, Some(o), c)
    ensures Account(w2, served2, c)
  {
    if c != o { Distinct(w, c, o); }
    hide Cast, CountFrom;
  }

  lemma Distinct(w: World, c: Tid, o: Tid)
    requires Cast(w) && c in w.clients && o in w.clients && c != o
    ensures w.k.th[c].proc.value != w.k.th[o].proc.value
  {
  }

  /** What the programs rely on, apart from the kernel's own invariant. */
  ghost predicate Books(w: World, served: Option<Tid>) {
    Cast(w) && Agreement(w, served) && Ledger(w, served)
  }

  /** The world after a call, field by field. */
  ghost predicate After(w: World, w2: World, k2: State, got: map<Pid, seq<Msg>>) {
    w2.k == k2 && w2.h.got == got && w2.sv == w.sv && w2.clients == w.clients && k2.cur < |k2.th|
  }

  lemma NextAfter(w: World, ch: Choice, served: Option<Tid>)
    requires Good(w, served) && ch.Run? && CanNext(w, ch)
    ensures var a := Request(w, ch);
      && CanStep(w.k, a) && Safe(Step(w.k, a)) && After(w, Next(w, ch), Step(w.k, a), Recorded(w.h, w.k, a).got)
  {
    hide Books, Agreement, Ledger, Cast, Recorded, Step, Request, Advance, Stops, Results;
    GoesOn(w, served);
    StepSafe(w.k, Request(w, ch));
    AdvanceFields(w, Step(w.k, Request(w, ch)));
  }

  /** A call that succeeds leaves everybody with a success to find. */
  lemma ResultsKept(w: World, ch: Choice, served: Option<Tid>)
    requires Good(w, served) && ch.Run? && CanNext(w, ch)
    requires var s2 := Step(w.k, Request(w, ch)); w.k.cur < |s2.th| && s2.th[w.k.cur].ctx.eax == IPC_SUCCESS.Code()
    ensures Results(Next(w, ch))
  {
    hide Inv, Acyclic, Agreement, Ledger, Cast, Recorded, Step, Request, Advance, Stops;
    GoesOn(w, served);
    var a := Request(w, ch);
    AdvanceFields(w, Step(w.k, a));
    forall t | t in w.called ensures t < |Step(w.k, a).th| && (t != w.k.cur ==> Step(w.k, a).th[t].ctx.eax == IPC_SUCCESS.Code()) {
      StepResult(w.k, a, t);
    }
  }

  lemma AdvanceFields(w: World, k2: State)
    requires WellFormed(w.k) && Runs(w)
    ensures var w2 := Advance(w, k2); w2.k == k2 && w2.sv == w.sv && w2.clients == w.clients && w2.called == w.called + {w.k.cur}
  {
  }

  // ---- the queue of requests over a call ----

  lemma ServerQueue(w: World)
    requires Cast(w) && WellFormed(w.k)
    ensures SERVER in w.k.wait
  {
  }

  lemma RequestMoves(w: World, w2: World, c: Tid, r: Option<Tid>, served: Option<Tid>, served2: Option<Tid>, m: Msg)
    requires WellFormed(w.k) && Books(w, served) && w.k.cur == c && c in w.clients && w.cpc[c] == ToSend
    requires After(w, w2, w2.k, if r.Some? then Append(w.h.got, SERVER, m) else w.h.got)
    requires w2.cpc == w.cpc[c := ToCollect] && w2.spc == w.spc && SentTo(w.k, w2.k, SERVER, r)
    requires (r.Some? ==> served == None) && served2 == if r.Some? then Some(c) else served
    ensures Moves(w, w2, served, served2) && Calm(w, w2, served)
  {
    hide WellFormed, Cast, Agreement, Account;
    ServerQueue(w);
    CastFacts(w);
    if r.Some? { SameThread(w, r.value, w.sv); }
  }

  lemma CollectMoves(w: World, w2: World, c: Tid, r: Option<Tid>, served: Option<Tid>, served2: Option<Tid>)
    requires WellFormed(w.k) && Books(w, served) && w.k.cur == c && c in w.clients && w.cpc[c] == ToCollect
    requires ReceivedFrom(w.k, w2.k, Some(SERVER), r)
    requires After(w, w2, w2.k, if r.Some? then Append(w.h.got, w.k.th[c].proc.value, InRegs(r.value, w.k.th[r.value].ctx)) else w.h.got)
    requires w2.cpc == w.cpc[c := ToThank] && w2.spc == w.spc
    requires served == Some(c) && served2 == if r.Some? then None else served
    ensures Moves(w, w2, served, served2) && Calm(w, w2, served)
  {
    hide WellFormed, Cast, Agreement, Account;
    ServerQueue(w);
    CastFacts(w);
  }

  lemma ThankMoves(w: World, w2: World, c: Tid, r: Option<Tid>, served: Option<Tid>, served2: Option<Tid>)
    requires WellFormed(w.k) && Books(w, served) && w.k.cur == c && c in w.clients && w.cpc[c] == ToThank
    requires Notified(w.k, w2.k, SERVER, r) && (r.Some? ==> !w.k.th[r.value].sending) && After(w, w2, w2.k, w.h.got)
    requires w2.cpc == w.cpc[c := ToSend] && w2.spc == w.spc && served2 == if served == Some(c) then None else served
    ensures Moves(w, w2, served, served2) && Calm(w, w2, served)
  {
    hide WellFormed, Cast, Agreement, Account;
    ServerQueue(w);
    CastFacts(w);
  }

  lemma TakenMoves(w: World, w2: World, r: Option<Tid>)
    requires Inv(w.k) && Books(w, None) && w.k.cur == w.sv && w.spc == ToReceive && ReceivedFrom(w.k, w2.k, None, r)
    requires After(w, w2, w2.k, if r.Some? then Append(w.h.got, SERVER, InRegs(r.value, w.k.th[r.value].ctx)) else w.h.got)
    requires w2.cpc == w.cpc && w2.spc == ToAcknowledge
    ensures Moves(w, w2, None, r) && Calm(w, w2, None)
  {
    ServerQueue(w);
    CastFacts(w);
    var q := w.k.wait[SERVER];
    if r.None? && q != [] { QueuedSends(w.k, SERVER, q[0]); }
    hide Inv, Cast, Agreement, Account;
  }

  lemma QueuedSends(s: State, p: Pid, u: Tid)
    requires Inv(s) && p in s.wait && u in s.wait[p]
    ensures u < |s.th| && s.th[u].sending && s.th[u].sendTo == Some(p) && s.th[u].run == Blocked
  {
    assert Placed(s, u);
  }

  lemma AcknowledgeMoves(w: World, w2: World, p: Pid, r: Option<Tid>, served: Option<Tid>)
    requires WellFormed(w.k) && Books(w, served) && served.Some? && w.k.cur == w.sv && w.spc == ToAcknowledge
    requires Notified(w.k, w2.k, p, r) && (r.Some? ==> !w.k.th[r.value].sending)
    requires After(w, w2, w2.k, w.h.got) && w2.cpc == w.cpc && w2.spc == ToReply
    ensures Moves(w, w2, served, served) && Calm(w, w2, served)
  {
    hide WellFormed, Cast, Agreement, Account;
    ServerQueue(w);
    CastFacts(w);
  }

  lemma ReplyMoves(w: World, w2: World, r: Option<Tid>, served: Option<Tid>, m: Msg)
    requires WellFormed(w.k) && Books(w, served) && w.k.cur == w.sv && w.spc == ToReply && w.from != SERVER && served.Some?
    requires SentTo(w.k, w2.k, w.from, r) && After(w, w2, w2.k, if r.Some? then Append(w.h.got, w.from, m) else w.h.got)
    requires w2.cpc == w.cpc && w2.spc == ToReceive
    ensures Moves(w, w2, served, served) && Calm(w, w2, served)
  {
    hide WellFormed, Cast, Agreement, Account;
    ServerQueue(w);
    CastFacts(w);
  }

  // ---- the calls of a client ----

  /** The request of `c` goes to the listening server, or waits. */
  lemma RequestMade(w: World, w2: World, c: Tid, r: Option<Tid>, served: Option<Tid>, m: Msg) returns (served2: Option<Tid>)
    requires Books(w, served) && w.k.cur == c && c in w.clients && w.cpc[c] == ToSend && Quiet(w.k.th[c])
    requires After(w, w2, w2.k, if r.Some? then Append(w.h.got, SERVER, m) else w.h.got) && m.tid == c
    requires w2.cpc == w.cpc[c := ToCollect] && w2.spc == w.spc && w2.from == w.from
    requires SentTo(w.k, w2.k, SERVER, r)
    ensures Books(w2, served2) && (r.Some? ==> served == None) && served2 == if r.Some? then Some(c) else served
  {
    match r
    case Some(u) =>
      served2 := Some(c);
      RequestDelivered(w, w2, c, u, served, m);
    case None =>
      served2 := served;
      RequestLeft(w, w2, c, served);
  }

  lemma RequestDelivered(w: World, w2: World, c: Tid, u: Tid, served: Option<Tid>, m: Msg)
    requires Books(w, served) && w.k.cur == c && c in w.clients && w.cpc[c] == ToSend && Quiet(w.k.th[c])
    requires After(w, w2, w2.k, Append(w.h.got, SERVER, m)) && m.tid == c
    requires w2.cpc == w.cpc[c := ToCollect] && w2.spc == w.spc && w2.from == w.from
    requires SentTo(w.k, w2.k, SERVER, Some(u))
    ensures Books(w2, Some(c)) && served == None
  {
    hide Cast, Ledger;
    CastFacts(w);
    SameThread(w, u, w.sv);
    assert Around(w, w2, c, u);
    CastKept(w, w2, c, u);
    LedgerRequest(w, w2, c, u, c, m);
    AgreeAfter(w, w2, c, u, served, Some(c));
  }

  lemma RequestLeft(w: World, w2: World, c: Tid, served: Option<Tid>)
    requires Books(w, served) && w.k.cur == c && c in w.clients && w.cpc[c] == ToSend && Quiet(w.k.th[c])
    requires After(w, w2, w2.k, w.h.got)
    requires w2.cpc == w.cpc[c := ToCollect] && w2.spc == w.spc && w2.from == w.from
    requires SentTo(w.k, w2.k, SERVER, None)
    ensures Books(w2, served)
  {
    hide Cast, Ledger;
    CastFacts(w);
    assert Around(w, w2, c, c);
    CastKept(w, w2, c, c);
    LedgerKept(w, w2, c, c, served, served);
    AgreeAfter(w, w2, c, c, served, served);
  }

  lemma ClientSends(w: World, ch: Choice, served: Option<Tid>) returns (served2: Option<Tid>)
    requires Good(w, served) && ch.Run? && w.k.cur in w.clients && w.cpc[w.k.cur] == ToSend
    ensures CanNext(w, ch) && Good(Next(w, ch), served2)
    ensures Moves(w, Next(w, ch), served, served2) && Calm(w, Next(w, ch), served)
  {
    hide Inv, Agreement, Ledger, Results, Moves, Calm, Reaches, SentTo, Step, Recorded, NotServed, Serving, Idling;
    var c := w.k.cur;
    var a := Call(SYSCALL_SEND, SERVER, ch.m1, ch.m2, ch.m3);
    ClientCall(w, ch, served, a);
    ServerFree(w, served, c);
    var r := SendView(w.h, w.k, a);
    NextAfter(w, ch, served);
    ResultsKept(w, ch, served);
    var m := Msg(c, w.k.th[c].proc.value, ch.m1, ch.m2, ch.m3);
    served2 := RequestMade(w, Next(w, ch), c, r, served, m);
    RequestMoves(w, Next(w, ch), c, r, served, served2, m);
  }

  /** The caller is not the one the server replies to, so its request cannot close a chain. */
  lemma ServerFree(w: World, served: Option<Tid>, c: Tid)
    requires Good(w, served) && c in w.clients && w.cpc[c] == ToSend
    ensures !Reaches(w.k, SERVER, w.k.th[c].proc.value)
  {
    if Reaches(w.k, SERVER, w.k.th[c].proc.value) { ServerChain(w, served, w.k.th[c].proc.value); }
  }

  /** What a client asks for is allowed, and its program counter then moves on. */
  lemma ClientCall(w: World, ch: Choice, served: Option<Tid>, a: Action)
    requires Good(w, served) && ch.Run? && w.k.cur in w.clients
    requires match w.cpc[w.k.cur]
      case ToSend => a == Call(SYSCALL_SEND, SERVER, ch.m1, ch.m2, ch.m3)
      case ToCollect => a == Call(SYSCALL_RECEIVE, SERVER, ch.m1, ch.m2, ch.m3)
      case ToThank => a == Call(SYSCALL_NOTIFY, SERVER, ch.m1, ch.m2, ch.m3)
      case ClientEnd => false
    ensures Runs(w) && Request(w, ch) == a && CanStep(w.k, a) && CanNext(w, ch) && a.dest in w.k.members
    ensures Quiet(w.k.th[w.k.cur]) && w.k.cur < |w.k.th|
    ensures var w2 := Next(w, ch); var t := w.k.cur;
      && w2.spc == w.spc && w2.from == w.from
      && w2.cpc == w.cpc[t := match w.cpc[t] case ToSend => ToCollect case ToCollect => ToThank case _ => ToSend]
  {
    hide Inv, Acyclic, SelectsQueued, Agreement, Ledger, Request, Advance, Step, Served, Recorded;
    Runner(w, served);
    CallerCast(w);
    if a.num == SYSCALL_NOTIFY { ThanksSelects(w, served); }
    Serves(w.k, a);
    ClientRequest(w, ch);
    GoesOn(w, served);
    NextIs(w, ch);
    ClientAdvances(w, Step(w.k, a));
  }

  lemma CallerCast(w: World)
    requires Cast(w) && Inv(w.k) && w.k.cur in w.clients
    ensures w.k.th[w.k.cur].proc.Some? && w.k.th[w.k.cur].proc != Some(SERVER) && SERVER in w.k.members && w.k.cur != w.sv
    ensures w.k.cur in w.cpc && w.k.cur < |w.k.th| && WellFormed(w.k)
  {
  }

  /** A call that sends to another process and notifies nobody who is queued is served. */
  lemma Serves(k: State, a: Action)
    requires Safe(k) && k.th[k.cur].proc.Some? && a.Call?
    requires a.num == SYSCALL_NOTIFY ==> a.dest != IPC_ANY && (a.dest in k.members ==> !SelectsQueued(k, a.dest))
    requires a.num == SYSCALL_SEND ==> k.th[k.cur].proc != Some(a.dest)
    ensures Served(k, a) && CanStep(k, a)
  {
    hide SelectsQueued, SelectsWaitHead, Acyclic;
    if a.num == SYSCALL_NOTIFY && a.dest in k.members { HeadIsQueued(k, a.dest); }
  }

  /** No program finds that its call failed. */
  lemma GoesOn(w: World, served: Option<Tid>)
    requires Good(w, served)
    ensures WellFormed(w.k) && !Stops(w)
  {
  }

  lemma NextIs(w: World, ch: Choice)
    requires WellFormed(w.k) && ch.Run? && Runs(w) && !Stops(w) && Served(w.k, Request(w, ch))
    ensures CanNext(w, ch)
    ensures var (w2, w1) := (Next(w, ch), Advance(w, Step(w.k, Request(w, ch))));
      w2.k == w1.k && w2.spc == w1.spc && w2.from == w1.from && w2.cpc == w1.cpc
  {
    hide Request, Advance, Step, Recorded, Enabled, SelectsQueued, Runs;
  }

  lemma ClientRequest(w: World, ch: Choice)
    requires WellFormed(w.k) && ch.Run? && w.k.cur in w.clients && w.k.cur != w.sv && w.k.cur in w.cpc && w.cpc[w.k.cur] != ClientEnd
    ensures Runs(w)
    ensures Request(w, ch) == match w.cpc[w.k.cur]
      case ToSend => Call(SYSCALL_SEND, SERVER, ch.m1, ch.m2, ch.m3)
      case ToCollect => Call(SYSCALL_RECEIVE, SERVER, ch.m1, ch.m2, ch.m3)
      case ToThank => Call(SYSCALL_NOTIFY, SERVER, ch.m1, ch.m2, ch.m3)
  {
  }

  lemma ClientAdvances(w: World, k2: State)
    requires WellFormed(w.k) && Runs(w) && w.k.cur in w.clients && w.k.cur != w.sv
    ensures var (w2, t) := (Advance(w, k2), w.k.cur);
      && w2.k == k2 && w2.spc == w.spc && w2.from == w.from
      && w2.cpc == w.cpc[t := match w.cpc[t] case ToSend => ToCollect case ToCollect => ToThank case _ => ToSend]
  {
  }

  /** A server that waits for the notify of `c` serves it. */
  lemma WokenServes(w: World, c: Tid, served: Option<Tid>)
    requires Cast(w) && Agreement(w, served) && c in w.clients
    requires Wakeable(w.k.th[w.sv], w.k.th[c].proc)
    ensures served == Some(c) && w.spc == ToReceive
  {
    hide NotServed;
    if served.Some? { SameThreads(w, c, served.value); }
  }

  lemma SameThreads(w: World, c: Tid, o: Tid)
    requires Cast(w) && c in w.clients && o in w.clients && w.k.th[c].proc == w.k.th[o].proc
    ensures c == o
  {
  }

  lemma ClientKnown(w: World, c: Tid)
    requires Cast(w) && c in w.clients
    ensures w.k.th[c].proc.value in w.k.members
  {
  }

  lemma ServerKnown(w: World)
    requires Cast(w)
    ensures SERVER in w.k.members
  {
  }

  /** When a client thanks the server, the server is not waiting to send to it. */
  lemma ThanksSelects(w: World, served: Option<Tid>)
    requires Good(w, served) && w.k.cur in w.clients && w.cpc[w.k.cur] == ToThank && Quiet(w.k.th[w.k.cur])
    ensures CanCall(w.k) && !SelectsQueued(w.k, SERVER)
  {
    hide Acyclic, Ledger, Cast, NoRepeats, Membership, AllPlaced, NoMissedRendezvous, SelectsQueued;
    CastFacts(w);
    ServerKnown(w);
    forall u | 0 <= u < |w.k.th| && w.k.th[u].proc == Some(SERVER) && Wakeable(w.k.th[u], w.k.th[w.k.cur].proc)
      ensures !w.k.th[u].sending
    {
      SameThread(w, u, w.sv);
      WokenServes(w, w.k.cur, served);
    }
    SelectsNone(w.k, SERVER);
  }

  lemma ReplyTaken(w: World, w2: World, c: Tid, u: Tid, served: Option<Tid>)
    requires Books(w, served) && w.k.cur == c && c in w.clients && w.cpc[c] == ToCollect && Quiet(w.k.th[c])
    requires ReceivedFrom(w.k, w2.k, Some(SERVER), Some(u)) && u < |w.k.th|
    requires After(w, w2, w2.k, Append(w.h.got, w.k.th[c].proc.value, InRegs(u, w.k.th[u].ctx)))
    requires w2.cpc == w.cpc[c := ToThank] && w2.spc == w.spc && w2.from == w.from
    ensures Books(w2, None) && served == Some(c)
  {
    hide Cast, Ledger;
    CastFacts(w);
    SameThread(w, u, w.sv);
    assert !NotServed(w.k.th[c], w.cpc[c]);
    assert served == Some(c);
    assert Around(w, w2, c, u);
    CastKept(w, w2, c, u);
    LedgerReply(w, w2, c, u, c, InRegs(u, w.k.th[u].ctx), None);
    AgreeAfter(w, w2, c, u, served, None);
  }

  lemma ReplyAwaited(w: World, w2: World, c: Tid, served: Option<Tid>)
    requires Books(w, served) && w.k.cur == c && c in w.clients && w.cpc[c] == ToCollect && Quiet(w.k.th[c])
    requires ReceivedFrom(w.k, w2.k, Some(SERVER), None) && After(w, w2, w2.k, w.h.got)
    requires w2.cpc == w.cpc[c := ToThank] && w2.spc == w.spc && w2.from == w.from
    ensures Books(w2, served) && served == Some(c)
  {
    hide Cast, Ledger;
    CastFacts(w);
    assert !NotServed(w.k.th[c], w.cpc[c]);
    assert served == Some(c) && w.spc != ToReceive;
    assert Around(w, w2, c, c);
    CastKept(w, w2, c, c);
    LedgerKept(w, w2, c, c, served, served);
    AgreeAfter(w, w2, c, c, served, served);
  }

  /** The client takes a waiting reply, or waits for it. */
  lemma ReplyAsked(w: World, w2: World, c: Tid, r: Option<Tid>, served: Option<Tid>) returns (served2: Option<Tid>)
    requires Books(w, served) && w.k.cur == c && c in w.clients && w.cpc[c] == ToCollect && Quiet(w.k.th[c])
    requires ReceivedFrom(w.k, w2.k, Some(SERVER), r)
    requires After(w, w2, w2.k, if r.Some? then Append(w.h.got, w.k.th[c].proc.value, InRegs(r.value, w.k.th[r.value].ctx)) else w.h.got)
    requires w2.cpc == w.cpc[c := ToThank] && w2.spc == w.spc && w2.from == w.from
    ensures Books(w2, served2) && served == Some(c) && served2 == if r.Some? then None else served
  {
    hide Ledger, Agreement;
    match r
    case Some(u) =>
      served2 := None;
      ReplyTaken(w, w2, c, u, served);
    case None =>
      served2 := served;
      ReplyAwaited(w, w2, c, served);
  }

  lemma ClientCollects(w: World, ch: Choice, served: Option<Tid>) returns (served2: Option<Tid>)
    requires Good(w, served) && ch.Run? && w.k.cur in w.clients && w.cpc[w.k.cur] == ToCollect
    ensures CanNext(w, ch) && Good(Next(w, ch), served2)
    ensures Moves(w, Next(w, ch), served, served2) && Calm(w, Next(w, ch), served)
  {
    hide Inv, Agreement, Ledger, Results, Moves, Calm, Reaches, ReceivedFrom, Step, Recorded, NotServed, Serving, Idling;
    var a := Call(SYSCALL_RECEIVE, SERVER, ch.m1, ch.m2, ch.m3);
    ClientCall(w, ch, served, a);
    var r := ReceiveView(w.h, w.k, a);
    NextAfter(w, ch, served);
    ResultsKept(w, ch, served);
    served2 := ReplyAsked(w, Next(w, ch), w.k.cur, r, served);
    CollectMoves(w, Next(w, ch), w.k.cur, r, served, served2);
  }

  lemma ServerWoken(w: World, w2: World, c: Tid, u: Tid, served: Option<Tid>)
    requires Books(w, served) && w.k.cur == c && c in w.clients && w.cpc[c] == ToThank && Quiet(w.k.th[c])
    requires Notified(w.k, w2.k, SERVER, Some(u)) && After(w, w2, w2.k, w.h.got)
    requires w2.cpc == w.cpc[c := ToSend] && w2.spc == w.spc && w2.from == w.from
    ensures Books(w2, None) && served == Some(c)
  {
    hide Cast, Ledger;
    CastFacts(w);
    SameThread(w, u, w.sv);
    WokenServes(w, c, served);
    assert Around(w, w2, c, u);
    CastKept(w, w2, c, u);
    LedgerKept(w, w2, c, u, served, None);
    AgreeAfter(w, w2, c, u, served, None);
  }

  lemma NobodyWoken(w: World, w2: World, c: Tid, served: Option<Tid>)
    requires Books(w, served) && w.k.cur == c && c in w.clients && w.cpc[c] == ToThank && Quiet(w.k.th[c])
    requires Notified(w.k, w2.k, SERVER, None) && After(w, w2, w2.k, w.h.got)
    requires w2.cpc == w.cpc[c := ToSend] && w2.spc == w.spc && w2.from == w.from
    ensures Books(w2, served) && served != Some(c)
  {
    hide Cast, Ledger;
    CastFacts(w);
    assert served != Some(c);
    assert Around(w, w2, c, c);
    CastKept(w, w2, c, c);
    LedgerKept(w, w2, c, c, served, served);
    AgreeAfter(w, w2, c, c, served, served);
  }

  /** The client wakes the server that waits for it, and nobody else. */
  lemma ServerThanked(w: World, w2: World, c: Tid, r: Option<Tid>, served: Option<Tid>) returns (served2: Option<Tid>)
    requires Books(w, served) && w.k.cur == c && c in w.clients && w.cpc[c] == ToThank && Quiet(w.k.th[c])
    requires Notified(w.k, w2.k, SERVER, r) && After(w, w2, w2.k, w.h.got)
    requires w2.cpc == w.cpc[c := ToSend] && w2.spc == w.spc && w2.from == w.from
    ensures Books(w2, served2) && served2 == if served == Some(c) then None else served
  {
    hide Ledger, Agreement;
    match r
    case Some(u) =>
      served2 := None;
      ServerWoken(w, w2, c, u, served);
    case None =>
      served2 := served;
      NobodyWoken(w, w2, c, served);
  }

  lemma ClientThanks(w: World, ch: Choice, served: Option<Tid>) returns (served2: Option<Tid>)
    requires Good(w, served) && ch.Run? && w.k.cur in w.clients && w.cpc[w.k.cur] == ToThank
    ensures CanNext(w, ch) && Good(Next(w, ch), served2)
    ensures Moves(w, Next(w, ch), served, served2) && Calm(w, Next(w, ch), served)
  {
    hide Inv, Agreement, Ledger, Results, Moves, Calm, Reaches, Notified, Step, Recorded, NotServed, Serving, Idling;
    var a := Call(SYSCALL_NOTIFY, SERVER, ch.m1, ch.m2, ch.m3);
    ClientCall(w, ch, served, a);
    var r := NotifyView(w.h, w.k, a);
    NextAfter(w, ch, served);
    ResultsKept(w, ch, served);
    served2 := ServerThanked(w, Next(w, ch), w.k.cur, r, served);
    ThankMoves(w, Next(w, ch), w.k.cur, r, served, served2);
  }

  // ---- the calls of the server ----

  /** What the server asks for is allowed, and its program counter then moves on. */
  lemma ServerCall(w: World, ch: Choice, served: Option<Tid>, a: Action)
    requires Good(w, served) && ch.Run? && w.k.cur == w.sv
    requires match w.spc
      case ToReceive => a == Call(SYSCALL_RECEIVE, IPC_ANY, ch.m1, ch.m2, ch.m3)
      case ToAcknowledge => a == Call(SYSCALL_NOTIFY, w.k.th[w.sv].ctx.esi, ch.m1, ch.m2, ch.m3)
      case ToReply => a == Call(SYSCALL_SEND, w.from, ch.m1, ch.m2, ch.m3)
      case ServerEnd => false
    ensures Runs(w) && Request(w, ch) == a && CanStep(w.k, a) && CanNext(w, ch)
    ensures Quiet(w.k.th[w.sv]) && (a.num != SYSCALL_RECEIVE ==>
      && served.Some? && served.value in w.clients && served.value < |w.k.th|
      && w.k.th[served.value].proc == Some(a.dest) && a.dest in w.k.members)
    ensures var w2 := Next(w, ch);
      && w2.cpc == w.cpc && w2.from == (if w.spc == ToAcknowledge then w.k.th[w.sv].ctx.esi else w.from)
      && w2.spc == match w.spc case ToReceive => ToAcknowledge case ToAcknowledge => ToReply case _ => ToReceive
  {
    hide Inv, Acyclic, SelectsQueued, Agreement, Ledger, Request, Advance, Step, Served, Recorded, Serving;
    Runner(w, served);
    ServerCast(w, served);
    if a.num == SYSCALL_NOTIFY { AcknowledgeSelects(w, served); }
    Serves(w.k, a);
    ServerRequest(w, ch);
    GoesOn(w, served);
    NextIs(w, ch);
    ServerAdvances(w, Step(w.k, a));
  }

  lemma ServerCast(w: World, served: Option<Tid>)
    requires Cast(w) && Inv(w.k) && Agreement(w, served) && w.k.cur == w.sv && Quiet(w.k.th[w.sv])
    ensures w.k.th[w.sv].proc == Some(SERVER) && WellFormed(w.k) && w.sv < |w.k.th|
    ensures w.spc == ToReply ==> w.from != SERVER
    ensures w.spc == ToAcknowledge ==> w.k.th[w.sv].ctx.esi != IPC_ANY
    ensures w.spc == ToReply || w.spc == ToAcknowledge ==>
      && served.Some? && served.value in w.clients && served.value < |w.k.th|
      && var p := if w.spc == ToReply then w.from else w.k.th[w.sv].ctx.esi;
      && w.k.th[served.value].proc == Some(p) && p in w.k.members
  {
  }

  lemma ServerRequest(w: World, ch: Choice)
    requires WellFormed(w.k) && ch.Run? && w.k.cur == w.sv && w.sv < |w.k.th| && w.spc != ServerEnd
    ensures Runs(w)
    ensures Request(w, ch) == match w.spc
      case ToReceive => Call(SYSCALL_RECEIVE, IPC_ANY, ch.m1, ch.m2, ch.m3)
      case ToAcknowledge => Call(SYSCALL_NOTIFY, w.k.th[w.sv].ctx.esi, ch.m1, ch.m2, ch.m3)
      case ToReply => Call(SYSCALL_SEND, w.from, ch.m1, ch.m2, ch.m3)
  {
  }

  lemma ServerAdvances(w: World, k2: State)
    requires WellFormed(w.k) && Runs(w) && w.k.cur == w.sv
    ensures var w2 := Advance(w, k2);
      && w2.k == k2 && w2.cpc == w.cpc && w2.from == (if w.spc == ToAcknowledge then w.k.th[w.sv].ctx.esi else w.from)
      && w2.spc == match w.spc case ToReceive => ToAcknowledge case ToAcknowledge => ToReply case _ => ToReceive
  {
  }

  /** The client being served has had its message taken: a notify cannot find it queued. */
  lemma AcknowledgeSelects(w: World, served: Option<Tid>)
    requires Good(w, served) && w.k.cur == w.sv && w.spc == ToAcknowledge && Quiet(w.k.th[w.sv])
    ensures served.Some? && served.value in w.clients && served.value < |w.k.th|
    ensures var p := w.k.th[w.sv].ctx.esi;
      w.k.th[served.value].proc == Some(p) && p in w.k.members && CanCall(w.k) && !SelectsQueued(w.k, p)
  {
    hide Acyclic, Ledger, Cast, NoRepeats, AllPlaced, NoMissedRendezvous, SelectsQueued;
    CastFacts(w);
    ClientKnown(w, served.value);
    forall u | 0 <= u < |w.k.th| && w.k.th[u].proc == w.k.th[served.value].proc && Wakeable(w.k.th[u], w.k.th[w.k.cur].proc)
      ensures !w.k.th[u].sending
    {
      SameThread(w, u, served.value);
    }
    SelectsNone(w.k, w.k.th[w.sv].ctx.esi);
  }

  lemma FirstTaken(w: World, w2: World, u: Tid, served: Option<Tid>)
    requires Books(w, served) && w.k.cur == w.sv && w.spc == ToReceive && Quiet(w.k.th[w.sv])
    requires u < |w.k.th| && w.k.th[u].proc.Some? && ReceivedFrom(w.k, w2.k, None, Some(u))
    requires After(w, w2, w2.k, Append(w.h.got, SERVER, InRegs(u, w.k.th[u].ctx)))
    requires w2.cpc == w.cpc && w2.spc == ToAcknowledge && w2.from == w.from
    ensures Books(w2, Some(u)) && served == None
  {
    hide Cast, Ledger;
    CastFacts(w);
    InCast(w, u);
    assert served == None && NotServed(w.k.th[u], w.cpc[u]);
    assert Around(w, w2, w.sv, u);
    CastKept(w, w2, w.sv, u);
    LedgerRequest(w, w2, w.sv, u, u, InRegs(u, w.k.th[u].ctx));
    AgreeAfter(w, w2, w.sv, u, served, Some(u));
  }

  lemma Listening(w: World, w2: World, served: Option<Tid>)
    requires Books(w, served) && w.k.cur == w.sv && w.spc == ToReceive && Quiet(w.k.th[w.sv])
    requires ReceivedFrom(w.k, w2.k, None, None) && After(w, w2, w2.k, w.h.got)
    requires w2.cpc == w.cpc && w2.spc == ToAcknowledge && w2.from == w.from
    ensures Books(w2, None) && served == None
  {
    hide Cast, Ledger;
    CastFacts(w);
    assert served == None;
    assert Around(w, w2, w.sv, w.sv);
    CastKept(w, w2, w.sv, w.sv);
    LedgerKept(w, w2, w.sv, w.sv, served, None);
    AgreeAfter(w, w2, w.sv, w.sv, served, None);
  }

  /** The server takes the first waiting request, or listens. */
  lemma RequestTaken(w: World, w2: World, r: Option<Tid>, served: Option<Tid>) returns (served2: Option<Tid>)
    requires Books(w, served) && w.k.cur == w.sv && w.spc == ToReceive && Quiet(w.k.th[w.sv])
    requires forall t :: 0 <= t < |w.k.th| && w.k.th[t].sending ==> w.k.th[t].proc.Some?
    requires ReceivedFrom(w.k, w2.k, None, r)
    requires After(w, w2, w2.k, if r.Some? then Append(w.h.got, SERVER, InRegs(r.value, w.k.th[r.value].ctx)) else w.h.got)
    requires w2.cpc == w.cpc && w2.spc == ToAcknowledge && w2.from == w.from
    ensures Books(w2, served2) && served == None && served2 == r
  {
    hide Ledger, Agreement;
    served2 := r;
    match r
    case Some(u) => FirstTaken(w, w2, u, served);
    case None => Listening(w, w2, served);
  }

  lemma SendersHaveProcs(s: State)
    requires Inv(s)
    ensures forall t :: 0 <= t < |s.th| && s.th[t].sending ==> s.th[t].proc.Some?
  {
    forall t | 0 <= t < |s.th| && s.th[t].sending ensures s.th[t].proc.Some? { assert Placed(s, t); }
  }

  lemma ServerReceives(w: World, ch: Choice, served: Option<Tid>) returns (served2: Option<Tid>)
    requires Good(w, served) && ch.Run? && w.k.cur == w.sv && w.spc == ToReceive
    ensures CanNext(w, ch) && Good(Next(w, ch), served2)
    ensures Moves(w, Next(w, ch), served, served2) && Calm(w, Next(w, ch), served)
  {
    hide Inv, Agreement, Ledger, Results, Moves, Calm, Reaches, ReceivedFrom, Step, Recorded, NotServed, Serving, Idling;
    var a := Call(SYSCALL_RECEIVE, IPC_ANY, ch.m1, ch.m2, ch.m3);
    ServerCall(w, ch, served, a);
    SendersHaveProcs(w.k);
    var r := ReceiveView(w.h, w.k, a);
    NextAfter(w, ch, served);
    ResultsKept(w, ch, served);
    served2 := RequestTaken(w, Next(w, ch), r, served);
    TakenMoves(w, Next(w, ch), r);
  }

  /** The server wakes the client whose request it took, if that is still blocked. */
  lemma ClientAcknowledged(w: World, w2: World, p: Pid, r: Option<Tid>, o: Tid)
    requires Books(w, Some(o)) && w.k.cur == w.sv && w.spc == ToAcknowledge && Quiet(w.k.th[w.sv])
    requires p == w.k.th[w.sv].ctx.esi && Notified(w.k, w2.k, p, r) && After(w, w2, w2.k, w.h.got)
    requires w2.cpc == w.cpc && w2.spc == ToReply && w2.from == w.k.th[w.sv].ctx.esi
    ensures Books(w2, Some(o))
  {
    hide Cast, Ledger;
    var u := match r case Some(v) => v case None => w.sv;
    CastFacts(w);
    if r.Some? { SameThread(w, u, o); }
    assert Around(w, w2, w.sv, u);
    CastKept(w, w2, w.sv, u);
    LedgerKept(w, w2, w.sv, u, Some(o), Some(o));
    AgreeAfter(w, w2, w.sv, u, Some(o), Some(o));
  }

  lemma ServerAcknowledges(w: World, ch: Choice, served: Option<Tid>) returns (served2: Option<Tid>)
    requires Good(w, served) && ch.Run? && w.k.cur == w.sv && w.spc == ToAcknowledge
    ensures CanNext(w, ch) && Good(Next(w, ch), served2)
    ensures Moves(w, Next(w, ch), served, served2) && Calm(w, Next(w, ch), served)
  {
    hide Inv, Agreement, Ledger, Results, Moves, Calm, Reaches, Notified, Step, Recorded, NotServed, Serving, Idling;
    var a := Call(SYSCALL_NOTIFY, w.k.th[w.sv].ctx.esi, ch.m1, ch.m2, ch.m3);
    ServerCall(w, ch, served, a);
    var r := NotifyView(w.h, w.k, a);
    NextAfter(w, ch, served);
    ResultsKept(w, ch, served);
    ClientAcknowledged(w, Next(w, ch), a.dest, r, served.value);
    served2 := served;
    AcknowledgeMoves(w, Next(w, ch), a.dest, r, served);
  }

  /** The reply goes to the waiting client, or waits for it. */
  lemma ReplyMade(w: World, w2: World, r: Option<Tid>, o: Tid, m: Msg)
    requires Books(w, Some(o)) && w.k.cur == w.sv && w.spc == ToReply && Quiet(w.k.th[w.sv])
    requires SentTo(w.k, w2.k, w.from, r) && m.tid == w.sv && m.from == SERVER
    requires After(w, w2, w2.k, if r.Some? then Append(w.h.got, w.from, m) else w.h.got)
    requires w2.cpc == w.cpc && w2.spc == ToReceive && w2.from == w.from
    ensures Books(w2, Some(o))
  {
    hide Cast, Ledger;
    var u := match r case Some(v) => v case None => w.sv;
    CastFacts(w);
    if r.Some? { SameThread(w, u, o); }
    assert Around(w, w2, w.sv, u);
    CastKept(w, w2, w.sv, u);
    if r.Some? {
      LedgerReply(w, w2, w.sv, u, o, m, Some(o));
    } else {
      LedgerKept(w, w2, w.sv, u, Some(o), Some(o));
    }
    AgreeAfter(w, w2, w.sv, u, Some(o), Some(o));
  }

  /** The client being served is not sending, so a reply to it cannot close a chain. */
  lemma ServedFree(w: World, served: Option<Tid>)
    requires Good(w, served) && w.spc == ToReply
    ensures served.Some? && served.value in w.clients && served.value < |w.k.th|
    ensures w.k.th[served.value].proc == Some(w.from) && !Reaches(w.k, w.from, SERVER)
  {
    hide Reaches, Ledger, Cast, Acyclic, NoRepeats, AllPlaced, NoMissedRendezvous;
    CastFacts(w);
    ClientChain(w, served.value, SERVER);
  }

  lemma ServerReplies(w: World, ch: Choice, served: Option<Tid>) returns (served2: Option<Tid>)
    requires Good(w, served) && ch.Run? && w.k.cur == w.sv && w.spc == ToReply
    ensures CanNext(w, ch) && Good(Next(w, ch), served2)
    ensures Moves(w, Next(w, ch), served, served2) && Calm(w, Next(w, ch), served)
  {
    hide Inv, Agreement, Ledger, Results, Moves, Calm, Reaches, SentTo, Step, Recorded, NotServed, Serving, Idling;
    var a := Call(SYSCALL_SEND, w.from, ch.m1, ch.m2, ch.m3);
    ServerCall(w, ch, served, a);
    ServedFree(w, served);
    var r := SendView(w.h, w.k, a);
    NextAfter(w, ch, served);
    ResultsKept(w, ch, served);
    ReplyMade(w, Next(w, ch), r, served.value, Msg(w.sv, SERVER, ch.m1, ch.m2, ch.m3));
    served2 := served;
    ReplyMoves(w, Next(w, ch), r, served, Msg(w.sv, SERVER, ch.m1, ch.m2, ch.m3));
  }

  // ---- whole runs ----

  lemma ClockTicks(w: World, served: Option<Tid>)
    requires Good(w, served)
    ensures CanNext(w, Clock) && Good(Next(w, Clock), served)
  {
    StepSafe(w.k, Tick);
    var w2 := Next(w, Clock);
    assert Results(w2);
    assert Around(w, w2, w.sv, w.sv);
    LedgerKept(w, w2, w.sv, w.sv, served, served);
  }

  /** Whatever happens next is something the kernel allows, and the programs stay in step. */
  lemma NextGood(w: World, ch: Choice, served: Option<Tid>) returns (served2: Option<Tid>)
    requires Good(w, served) && (ch.Run? ==> Runs(w))
    ensures CanNext(w, ch) && Good(Next(w, ch), served2)
    ensures ch.Clock? ==> served2 == served
    ensures ch.Run? ==> Moves(w, Next(w, ch), served, served2) && Calm(w, Next(w, ch), served)
  {
    hide Inv, Agreement, Ledger, Cast, CanNext, Next, Moves, Calm;
    if ch.Clock? {
      ClockTicks(w, served);
      served2 := served;
    } else if w.k.cur == w.sv {
      match w.spc
      case ToReceive => served2 := ServerReceives(w, ch, served);
      case ToAcknowledge => served2 := ServerAcknowledges(w, ch, served);
      case ToReply => served2 := ServerReplies(w, ch, served);
    } else {
      match w.cpc[w.k.cur]
      case ToSend => served2 := ClientSends(w, ch, served);
      case ToCollect => served2 := ClientCollects(w, ch, served);
      case ToThank => served2 := ClientThanks(w, ch, served);
    }
  }

  /** All programs at the start of their loops, nothing sent. */
  ghost predicate Start(w: World) {
    && Initial(w.k) && Cast(w) && w.spc == ToReceive
    && (forall c :: c in w.clients ==> w.cpc[c] == ToSend)
    && w.called == {} && w.h.got == map p | p in w.k.members :: []
  }

  function Numbers(n: nat): (s: seq<nat>)
    ensures |s| == n && forall i :: 0 <= i < n ==> s[i] == i
  {
    seq(n, i requires 0 <= i => i)
  }

  /** The idle thread, the server of process 1, and a client of each of `n` further processes. */
  ghost function KernelWith(n: nat): State
    requires n + 2 < 0x1_0000_0000
  {
    var ids := Numbers(n + 2);
    var th := seq(n + 2, i requires 0 <= i =>
      Thread(if i == 0 then None else Some(i), Ready, false, false, None, None, STILL));
    State(th, ids, [], map p | p in ids[1..] :: [], map p | p in ids[1..] :: [p], 0)
  }

  ghost function StartWith(n: nat): World
    requires n + 2 < 0x1_0000_0000
  {
    var k := KernelWith(n);
    var silent := map p | p in k.members :: [];
    var others := Numbers(n + 2)[2..];
    var clients := set c | c in others;
    World(k, History(silent, silent, silent), 1, clients, ToReceive, 0, map c | c in clients :: ToSend, {})
  }

  lemma InTail(n: nat, k: nat, x: nat)
    requires k <= n
    ensures x in Numbers(n)[k..] <==> k <= x < n
  {
    if k <= x < n { assert Numbers(n)[k..][x - k] == x; }
  }

  lemma KernelStarts(n: nat)
    requires n + 2 < 0x1_0000_0000
    ensures Initial(KernelWith(n)) && forall p: Pid :: p in KernelWith(n).members <==> 1 <= p < n + 2
  {
    var s := KernelWith(n);
    forall p: Pid ensures p in s.members <==> 1 <= p < n + 2 { InTail(n + 2, 1, p); }
    forall p: Pid ensures p in s.wait <==> 1 <= p < n + 2 { InTail(n + 2, 1, p); }
    assert s.wait.Keys == s.members.Keys;
    forall t | 0 <= t < n + 2 ensures t in s.ready { assert s.ready[t] == t; }
    assert Idle(s, 0);
  }

  lemma StartCast(n: nat)
    requires n + 2 < 0x1_0000_0000
    ensures Cast(StartWith(n)) && forall c: Tid :: c in StartWith(n).clients <==> 2 <= c < n + 2
  {
    hide Initial;
    KernelStarts(n);
    forall c: Tid ensures c in StartWith(n).clients <==> 2 <= c < n + 2 { InTail(n + 2, 2, c); }
  }

  lemma StartSilent(n: nat)
    requires n + 2 < 0x1_0000_0000
    ensures var w := StartWith(n);
      && w.k == KernelWith(n) && w.spc == ToReceive && w.cpc.Keys == w.clients
      && (forall c :: c in w.clients ==> w.cpc[c] == ToSend)
      && w.called == {} && w.h.got == map p | p in w.k.members :: []
  {
    hide KernelWith, Numbers;
  }

  /** The runs below exist for any number of clients. */
  lemma StartExists(n: nat)
    requires n + 2 < 0x1_0000_0000
    ensures Start(StartWith(n)) && forall c: Tid :: c in StartWith(n).clients <==> 2 <= c < n + 2
  {
    KernelStarts(n);
    StartCast(n);
    StartSilent(n);
    hide Initial, Cast, StartWith;
  }

  lemma InitialQuiet(s: State)
    requires Initial(s)
    ensures forall t :: 0 <= t < |s.th| ==> Quiet(s.th[t])
  {
  }

  lemma StartLedger(w: World)
    requires Start(w)
    ensures Ledger(w, None)
  {
    hide Initial, Cast;
    ServerKnown(w);
    forall c | c in w.clients ensures Account(w, None, c) { ClientKnown(w, c); }
  }

  lemma StartGood(w: World)
    requires Start(w)
    ensures Good(w, None)
  {
    InitialSafe(w.k);
    InitialQuiet(w.k);
    StartLedger(w);
    hide Inv, Acyclic, Initial, Cast, Ledger;
    CastFacts(w);
  }

  /** A run: at each point the clock ticks or the running program makes its next call. */
  ghost predicate IsWorldRun(ws: seq<World>, chs: seq<Choice>) {
    && |ws| == |chs| + 1 && Start(ws[0])
    && forall i :: 0 <= i < |chs| && WellFormed(ws[i].k) ==>
         && (chs[i].Run? ==> Runs(ws[i]))
         && (CanNext(ws[i], chs[i]) ==> ws[i + 1] == Next(ws[i], chs[i]))
  }

  lemma {:induction false} RunGood(ws: seq<World>, chs: seq<Choice>, i: nat) returns (served: Option<Tid>)
    requires IsWorldRun(ws, chs) && i < |ws|
    ensures Good(ws[i], served)
  {
    hide Agreement, Ledger, Cast, Next, Start, Runs, Inv, CanNext;
    if i == 0 {
      StartGood(ws[0]);
      served := None;
    } else {
      var before := RunGood(ws, chs, i - 1);
      GoodWell(ws[i - 1], before);
      served := NextGood(ws[i - 1], chs[i - 1], before);
    }
  }

  lemma GoodWell(w: World, served: Option<Tid>)
    requires Good(w, served)
    ensures WellFormed(w.k)
  {
  }

  /**
    In every reachable state every call a program makes is one the kernel serves: a
    notify never selects a thread that still waits to send. Whoever runs finds in EAX that
    its last call succeeded, also if it was blocked since, and no loop ends.
   */
  lemma NeverRefused(ws: seq<World>, chs: seq<Choice>, i: nat, ch: Choice)
    requires IsWorldRun(ws, chs) && i < |ws| && (ch.Run? && WellFormed(ws[i].k) ==> Runs(ws[i]))
    ensures CanNext(ws[i], ch) && !Stops(ws[i])
    ensures forall t :: t in ws[i].called ==> t < |ws[i].k.th| && ws[i].k.th[t].ctx.eax == IPC_SUCCESS.Code()
    ensures ws[i].spc != ServerEnd && forall c :: c in ws[i].clients ==> c in ws[i].cpc && ws[i].cpc[c] != ClientEnd
  {
    var served := RunGood(ws, chs, i);
    GoesOn(ws[i], served);
    var after := NextGood(ws[i], ch, served);
    NobodyEnds(ws[i], served);
  }

  /** Some program is ready: the server and the clients are never all blocked. */
  lemma SomebodyRuns(w: World, served: Option<Tid>)
    requires Good(w, served) && w.clients != {}
    ensures exists t :: (t == w.sv || t in w.clients) && t < |w.k.th| && w.k.th[t].run == Ready
  {
    hide Acyclic, Ledger, Cast, NoRepeats, Membership, AllPlaced, NoMissedRendezvous;
    CastFacts(w);
    if w.k.th[w.sv].run == Blocked {
      match served
      case Some(o) => assert w.k.th[o].run == Ready;
      case None =>
        var c :| c in w.clients;
        if w.k.th[c].run == Blocked {
          assert NotServed(w.k.th[c], w.cpc[c]);
          ListenerHasNoQueue(w, c);
          assert false;
        }
    }
  }

  /** While the server listens to anyone, no client can be waiting to send to it. */
  lemma ListenerHasNoQueue(w: World, c: Tid)
    requires Inv(w.k) && Cast(w) && c in w.clients && w.k.th[c].sending && w.k.th[c].sendTo == Some(SERVER)
    requires w.k.th[c].run == Blocked
    ensures !(w.k.th[w.sv].IsReceiving() && w.k.th[w.sv].recvFrom == None)
  {
    assert Placed(w.k, c);
    assert c in w.k.wait[SERVER];
    NotMissed(w.k, SERVER, c, w.sv);
  }

  lemma NeverAllBlocked(ws: seq<World>, chs: seq<Choice>, i: nat)
    requires IsWorldRun(ws, chs) && i < |ws| && ws[i].clients != {}
    ensures exists t :: (t == ws[i].sv || t in ws[i].clients) && t < |ws[i].k.th| && ws[i].k.th[t].run == Ready
  {
    var served := RunGood(ws, chs, i);
    SomebodyRuns(ws[i], served);
  }

  /** As many replies as requests taken, for every client but the one that is owed one. */
  ghost predicate Balanced(w: World, served: Option<Tid>)
    requires Cast(w)
  {
    SERVER in w.h.got && forall c {:trigger c in w.clients} :: c in w.clients ==>
      var p := w.k.th[c].proc.value;
      && p in w.h.got
      && |w.h.got[p]| <= CountFrom(w.h.got[SERVER], c) <= |w.h.got[p]| + (if served == Some(c) then 1 else 0)
      && forall m :: m in w.h.got[p] ==> m.tid == w.sv && m.from == SERVER
  }

  lemma LedgerBalances(w: World, served: Option<Tid>)
    requires Cast(w) && Ledger(w, served)
    ensures Balanced(w, served)
  {
    CastFacts(w);
    hide Cast, CountFrom;
    forall c {:trigger c in w.clients} | c in w.clients
      ensures var p := w.k.th[c].proc.value;
        && p in w.h.got
        && |w.h.got[p]| <= CountFrom(w.h.got[SERVER], c) <= |w.h.got[p]| + (if served == Some(c) then 1 else 0)
        && forall m :: m in w.h.got[p] ==> m.tid == w.sv && m.from == SERVER
    {
      assert Account(w, served, c);
    }
  }

  /**
    In every reachable state each client has got as many replies as the server took
    requests of it, but for one client at most that is owed one; all come from the server.
   */
  lemma OneReplyEach(ws: seq<World>, chs: seq<Choice>, i: nat) returns (served: Option<Tid>)
    requires IsWorldRun(ws, chs) && i < |ws|
    ensures Cast(ws[i]) && Balanced(ws[i], served)
  {
    hide Agreement, Ledger, Cast, Inv, Acyclic, Results, IsWorldRun, Balanced;
    served := RunGood(ws, chs, i);
    LedgerBalances(ws[i], served);
  }
}
