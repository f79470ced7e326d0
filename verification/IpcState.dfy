/**
  The kernel's rendezvous IPC as a transition system on values: the state the
  system calls of kern/syscall.c and the queues of kern/sched.c work on, and for
  every kernel entry the state it leaves. Each entry runs with interrupts off, so
  it is one step.
 */
module IpcState {
  import opened SeqLists

  type Tid = nat
  type Pid = nat
  type Word = w: int | 0 <= w < 0x1_0000_0000

  const IPC_ANY: Pid := 0
  const SYSCALL_SEND: Word := 1
  const SYSCALL_RECEIVE: Word := 2
  const SYSCALL_NOTIFY: Word := 3

  datatype Result = IPC_SUCCESS | IPC_FAILURE {
    function Code(): Word {
      match this case IPC_SUCCESS => 0 case IPC_FAILURE => 1
    }
  }

  /** The registers of a saved context that carry messages. */
  datatype Regs = Regs(esi: Word, edi: Word, eax: Word, ebx: Word, ecx: Word, edx: Word)

  datatype RunState = Ready | Blocked

  /** A `struct thread`; `sending` and `receiving` are the two bits of `ipc.state`. */
  datatype Thread = Thread(
    proc: Option<Pid>, run: RunState,
    sending: bool, receiving: bool, sendTo: Option<Pid>, recvFrom: Option<Pid>,
    ctx: Regs)
  {
    predicate IsSending() { sending && !receiving }      // ipc.state == SENDING
    predicate IsReceiving() { receiving && !sending }    // ipc.state == RECEIVING
  }

  /** `wait` and `members` hold the wait list and the thread list of each live process. */
  datatype State = State(
    th: seq<Thread>,
    ready: seq<Tid>, blocked: seq<Tid>,
    wait: map<Pid, seq<Tid>>, members: map<Pid, seq<Tid>>,
    cur: Tid)

  ghost predicate IdsIn(s: seq<Tid>, n: nat) {
    forall t :: t in s ==> t < n
  }

  /** What is needed to follow any pointer of the state. */
  ghost predicate WellFormed(s: State) {
    && s.cur < |s.th|
    && IdsIn(s.ready, |s.th|) && IdsIn(s.blocked, |s.th|)
    && s.wait.Keys == s.members.Keys && IPC_ANY !in s.members
    && (forall p :: p in s.members ==> p < 0x1_0000_0000)
    && (forall p :: p in s.members ==> IdsIn(s.wait[p], |s.th|) && IdsIn(s.members[p], |s.th|))
    && (forall t {:trigger s.th[t].proc} :: 0 <= t < |s.th| && s.th[t].proc.Some? ==> s.th[t].proc.value in s.members)
    && (forall t {:trigger s.th[t].sendTo} :: 0 <= t < |s.th| && s.th[t].sendTo.Some? ==> s.th[t].sendTo.value in s.members)
  }

  // ---- the graph of queued senders ----

  ghost predicate Edge(s: State, p: Pid, q: Pid) {
    p in s.members &&
    exists t :: t in s.members[p] && t < |s.th| && s.th[t].IsSending() && s.th[t].sendTo == Some(q)
  }

  ghost predicate IsPath(s: State, path: seq<Pid>) {
    |path| >= 2 && forall i :: 0 <= i < |path| - 1 ==> Edge(s, path[i], path[i + 1])
  }

  /** There is a chain of at least one send from `p` to `q`. */
  ghost predicate Reaches(s: State, p: Pid, q: Pid) {
    exists path :: IsPath(s, path) && path[0] == p && path[|path| - 1] == q
  }

  ghost predicate Acyclic(s: State) {
    forall p :: !Reaches(s, p, p)
  }

  // ---- searches ----

  /** Is `t` waiting for a message of process `from`, or of anyone? */
  predicate Accepts(th: Thread, from: Option<Pid>) {
    th.IsReceiving() && (th.recvFrom == from || th.recvFrom == None)
  }

  /** Is `t` what a notify of process `notifier` wakes? */
  predicate Wakeable(th: Thread, notifier: Option<Pid>) {
    th.sendTo == notifier && th.run == Blocked && !th.IsReceiving()
  }

  ghost function FindReceiver(s: State, q: Pid, from: Option<Pid>): Option<Tid>
    requires q in s.members
  {
    First(s.members[q], (t: Tid) => t < |s.th| && Accepts(s.th[t], from))
  }

  ghost function FindWaitingSender(s: State, q: Pid, from: Option<Pid>): (r: Option<Tid>)
    requires q in s.wait
    ensures r.Some? ==> r.value in s.wait[q]
  {
    if s.wait[q] == [] then None
    else if from == None then Some(s.wait[q][0])
    else First(s.wait[q], (t: Tid) => t < |s.th| && s.th[t].proc == from)
  }

  ghost function FindBlockedSender(s: State, notifier: Option<Pid>, p: Pid): Option<Tid>
    requires p in s.members
  {
    First(s.members[p], (t: Tid) => t < |s.th| && Wakeable(s.th[t], notifier))
  }

  // ---- kernel entries ----

  function CopyMsg(src: Regs, dst: Regs): Regs {
    dst.(esi := src.esi, ebx := src.ebx, ecx := src.ecx, edx := src.edx)
  }

  /** The head of the ready queue becomes its tail and the current thread. */
  function Elect(s: State): State {
    if s.ready == [] then s
    else s.(ready := s.ready[1..] + [s.ready[0]], cur := s.ready[0])
  }

  /** `t` hands its message to `r`, which becomes ready; `t` blocks until it is notified. */
  function Deliver(s: State, t: Tid, q: Pid, r: Tid): State
    requires t < |s.th| && r < |s.th|
  {
    var receiver := s.th[r].(ctx := CopyMsg(s.th[t].ctx, s.th[r].ctx), receiving := false, run := Ready);
    s.(th := s.th[r := receiver][t := s.th[t].(sending := false, sendTo := Some(q), run := Blocked)],
       ready := Remove(s.ready + [r], t),
       blocked := Remove(s.blocked, r) + [t])
  }

  /** `t` joins the wait list of `q`. */
  function Enqueue(s: State, t: Tid, q: Pid): State
    requires t < |s.th| && q in s.wait
  {
    s.(th := s.th[t := s.th[t].(sending := true, sendTo := Some(q), run := Blocked)],
       ready := Remove(s.ready, t),
       wait := s.wait[q := s.wait[q] + [t]])
  }

  /** The state in which a send looks for a receiver: the caller is already marked. */
  function Sending(s: State, t: Tid, q: Pid): State
    requires t < |s.th|
  {
    s.(th := s.th[t := s.th[t].(sending := true, sendTo := Some(q))])
  }

  ghost function Send(s: State, t: Tid, q: Option<Pid>): (State, Result)
    requires WellFormed(s) && t < |s.th| && s.th[t].proc.Some? && (q.Some? ==> q.value in s.members)
  {
    if q.None? || Reaches(s, q.value, s.th[t].proc.value) then (s, IPC_FAILURE)
    else
      match FindReceiver(Sending(s, t, q.value), q.value, s.th[t].proc)
      case Some(r) => (Elect(Deliver(s, t, q.value, r)), IPC_SUCCESS)
      case None => (Elect(Enqueue(s, t, q.value)), IPC_SUCCESS)
  }

  /** `t` takes the message of `a`, which leaves the wait list of `me` and becomes ready. */
  function Take(s: State, t: Tid, from: Option<Pid>, me: Pid, a: Tid): State
    requires t < |s.th| && a < |s.th| && me in s.wait
  {
    var th1 := s.th[t := s.th[t].(recvFrom := from, ctx := CopyMsg(s.th[a].ctx, s.th[t].ctx), receiving := false)];
    s.(th := th1[a := th1[a].(run := Ready, sending := false)],
       wait := s.wait[me := Remove(s.wait[me], a)],
       ready := s.ready + [a])
  }

  /** `t` blocks until somebody sends to it. */
  function Await(s: State, t: Tid, from: Option<Pid>): State
    requires t < |s.th|
  {
    s.(th := s.th[t := s.th[t].(receiving := true, recvFrom := from, run := Blocked)],
       ready := Remove(s.ready, t),
       blocked := s.blocked + [t])
  }

  ghost function Receive(s: State, t: Tid, from: Option<Pid>): State
    requires WellFormed(s) && t < |s.th| && s.th[t].proc.Some?
  {
    var me := s.th[t].proc.value;
    match FindWaitingSender(s, me, from)
    case Some(a) => Take(s, t, from, me, a)
    case None => Elect(Await(s, t, from))
  }

  /** `u`, blocked since its message was delivered, becomes ready. */
  function Wake(s: State, u: Tid): State
    requires u < |s.th|
  {
    s.(th := s.th[u := s.th[u].(run := Ready, sending := false)],
       blocked := Remove(s.blocked, u), ready := s.ready + [u])
  }

  /**
    The last branch is what unlinking means for a thread that is not in the blocked queue
    but in the wait list of `notifier`: Llist.WakeQueued proves it for the rings themselves.
   */
  ghost function Notify(s: State, notifier: Option<Pid>, p: Pid): State
    requires WellFormed(s) && p in s.members && notifier.Some? && notifier.value in s.members
  {
    match FindBlockedSender(s, notifier, p)
    case None => s
    case Some(u) =>
      if u in s.blocked then Wake(s, u)
      else
        Wake(s, u).(wait := s.wait[notifier.value := Unhooked(s.wait[notifier.value], u, s.ready)])
  }

  function SetReg(s: State, t: Tid, regs: Regs): State
    requires t < |s.th|
  {
    s.(th := s.th[t := s.th[t].(ctx := regs)])
  }

  /** The process a destination register names: None for IPC_ANY. */
  function Target(dest: Pid): Option<Pid> {
    if dest == IPC_ANY then None else Some(dest)
  }

  /** The state in which the primitive runs: the caller's source register holds its pid. */
  function Entered(s: State): State
    requires WellFormed(s) && s.th[s.cur].proc.Some?
  {
    SetReg(s, s.cur, s.th[s.cur].ctx.(esi := s.th[s.cur].proc.value))
  }

  ghost function Dispatch(s: State, num: Word, dest: Word): (r: (State, Result))
    requires WellFormed(s) && s.th[s.cur].proc.Some?
    requires num == SYSCALL_NOTIFY ==> dest != IPC_ANY
  {
    if dest != IPC_ANY && dest !in s.members then (s, IPC_FAILURE)
    else if num == SYSCALL_SEND then Send(s, s.cur, Target(dest))
    else if num == SYSCALL_RECEIVE then (Receive(s, s.cur, Target(dest)), IPC_SUCCESS)
    else if num == SYSCALL_NOTIFY then (Notify(s, s.th[s.cur].proc, dest), IPC_SUCCESS)
    else (s, IPC_FAILURE)
  }

  /** A system call of the current thread: number in ESI, destination in EDI. */
  ghost function Handle(s: State): State
    requires WellFormed(s) && s.th[s.cur].proc.Some?
    requires s.th[s.cur].ctx.esi == SYSCALL_NOTIFY ==> s.th[s.cur].ctx.edi != IPC_ANY
  {
    var regs := s.th[s.cur].ctx;
    var (s1, res) := Dispatch(Entered(s), regs.esi, regs.edi);
    if s.cur < |s1.th| then SetReg(s1, s.cur, s1.th[s.cur].ctx.(eax := res.Code())) else s1
  }
}
