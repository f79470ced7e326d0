/** Runs from the start that end where the exact conditions of IpcRuns fail. */
module IpcWitnesses {
  import opened SeqLists
  import opened IpcState
  import opened IpcInvariant
  import opened IpcGraph
  import opened IpcRuns
  import opened IpcMessages

  function Resting(p: Option<Pid>): Thread {
    Thread(p, Ready, false, false, None, None, STILL)
  }

  /** The idle thread and two processes of one thread each, when `cur` was elected and `ready` is left. */
  function Calm(ready: seq<Tid>, cur: Tid): State {
    State([Resting(None), Resting(Some(1)), Resting(Some(2))], ready, [], map[1 := [], 2 := []], map[1 := [1], 2 := [2]], cur)
  }

  lemma CalmStart()
    ensures Initial(Calm([0, 1, 2], 0))
  {
    SmallInitial(Calm([0, 1, 2], 0));
  }

  lemma CalmElects(a: Tid, b: Tid, c: Tid, cur: Tid)
    ensures Elect(Calm([a, b, c], cur)) == Calm([b, c, a], a)
  {
    assert [a, b, c][1..] + [a] == [b, c, a];
  }

  /** Two clock interrupts later thread 1 runs. */
  lemma CalmTicks()
    ensures IsRun([Calm([0, 1, 2], 0), Calm([1, 2, 0], 0), Calm([2, 0, 1], 1)], [Tick, Tick])
  {
    CalmStart();
    hide Calm;
    InitialSafe(Calm([0, 1, 2], 0));
    ElectKeeps(Calm([0, 1, 2], 0));
    CalmElects(0, 1, 2, 0);
    CalmElects(1, 2, 0, 0);
  }

  /** It may send to its own process, and after that the graph of senders has a cycle. */
  lemma SelfSendHappens()
    ensures IsRun([Calm([0, 1, 2], 0), Calm([1, 2, 0], 0), Calm([2, 0, 1], 1)], [Tick, Tick])
    ensures var s := Calm([2, 0, 1], 1);
      && CanCall(s) && Acyclic(s) && SelfQueued(s, 1)
      && !Acyclic(Send(s, 1, Some(1)).0)
  {
    CalmTicks();
    CalmSafe();
    hide IsRun;
    SendAcyclic(Calm([2, 0, 1], 1), 1);
  }

  /** Thread 1 with a message for process 2. */
  function Asking(sending: bool, run: RunState): Thread {
    Thread(Some(1), run, sending, false, if sending then Some(2) else None, None, Regs(1, 2, 0, 0, 0, 0))
  }

  /** It waits for process 2, whose thread is elected. */
  function Asked(): State {
    State([Resting(None), Asking(true, Blocked), Resting(Some(2))], [0, 2], [], map[1 := [], 2 := [1]], map[1 := [1], 2 := [2]], 2)
  }

  /** The call as the kernel starts on it. */
  function Entering(): State {
    State([Resting(None), Asking(false, Ready), Resting(Some(2))], [2, 0, 1], [], map[1 := [], 2 := []], map[1 := [1], 2 := [2]], 1)
  }

  lemma AskSends()
    ensures CanCall(Entering()) && Send(Entering(), 1, Some(2)) == (Elect(Enqueue(Entering(), 1, 2)), IPC_SUCCESS)
  {
    var e := Entering();
    SmallSafe();
    NobodyReaches(e, 2, 1);
    assert FindReceiver(Sending(e, 1, 2), 2, Some(1)).None?;
  }

  lemma SmallSafe()
    ensures CanCall(Entering()) && Calm([2, 0, 1], 1).cur == 1
  {
    CalmSafe();
    SetRegKeeps(Calm([2, 0, 1], 1), 1, Regs(1, 2, 0, 0, 0, 0));
    assert SetReg(Calm([2, 0, 1], 1), 1, Regs(1, 2, 0, 0, 0, 0)) == Entering();
  }

  lemma AskQueues()
    ensures Elect(Enqueue(Entering(), 1, 2)) == Asked()
  {
    var s := Enqueue(Entering(), 1, 2);
    assert Remove([2, 0, 1], 1) == [2, 0];
    assert Entering().wait[2] + [1] == [1];
    assert s.wait == map[1 := [], 2 := [1]];
    assert s.th == [Resting(None), Asking(true, Blocked), Resting(Some(2))];
  }

  lemma AskEnters()
    ensures var (s, a) := (Calm([2, 0, 1], 1), Call(SYSCALL_SEND, 2, 0, 0, 0));
      Safe(s) && Enabled(s, a) && AtEntry(s, a) == Entering()
  {
    CalmSafe();
  }

  lemma AskDispatches()
    ensures CanCall(Entering()) && Dispatch(Entering(), SYSCALL_SEND, 2) == (Asked(), IPC_SUCCESS)
  {
    hide Asked, Send, Enqueue, Elect, Inv;
    AskSends();
    AskQueues();
  }

  lemma AskReturns()
    ensures SetReg(Asked(), 1, Asked().th[1].ctx.(eax := IPC_SUCCESS.Code())) == Asked()
  {
    assert Asked().th[1].ctx.(eax := IPC_SUCCESS.Code()) == Asked().th[1].ctx;
  }

  lemma AskSteps()
    ensures var (s, a) := (Calm([2, 0, 1], 1), Call(SYSCALL_SEND, 2, 0, 0, 0));
      Safe(s) && Enabled(s, a) && Step(s, a) == Asked()
  {
    var (s, a) := (Calm([2, 0, 1], 1), Call(SYSCALL_SEND, 2, 0, 0, 0));
    AskEnters();
    AskDispatches();
    AskReturns();
    hide Safe, Enabled, Step, Handle, AtEntry, Dispatch, SetReg, Inv;
    HandleUnfolds(s, a, Entering());
  }

  lemma NobodyReaches(s: State, p: Pid, q: Pid)
    requires WellFormed(s) && forall t :: 0 <= t < |s.th| ==> !s.th[t].sending
    ensures !Reaches(s, p, q)
  {
    ReachesUnfold(s, p, q);
  }

  lemma CalmSafe()
    ensures Safe(Calm([2, 0, 1], 1))
  {
    CalmTicks();
    var trace := [Calm([0, 1, 2], 0), Calm([1, 2, 0], 0), Calm([2, 0, 1], 1)];
    CalmStart();
    InitialSafe(trace[0]);
    RunSafe(trace, [Tick, Tick], 2);
    assert trace[2] == Calm([2, 0, 1], 1);
  }

  lemma AskedSelects()
    ensures CanCall(Asked()) && FindBlockedSender(Asked(), Some(2), 1) == Some(1)
  {
    AskSteps();
    hide Step, Calm, Acyclic;
    StepSafe(Calm([2, 0, 1], 1), Call(SYSCALL_SEND, 2, 0, 0, 0));
  }

  lemma AskedRun()
    ensures IsRun([Calm([0, 1, 2], 0), Calm([1, 2, 0], 0), Calm([2, 0, 1], 1), Asked()],
                  [Tick, Tick, Call(SYSCALL_SEND, 2, 0, 0, 0)])
  {
    CalmTicks();
    AskSteps();
    hide Calm, Asked, Step, Enabled, WellFormed, Acyclic, AllPlaced;
    var trace := [Calm([0, 1, 2], 0), Calm([1, 2, 0], 0), Calm([2, 0, 1], 1)];
    assert trace[0] == Calm([0, 1, 2], 0) && trace[1] == Calm([1, 2, 0], 0) && trace[2] == Calm([2, 0, 1], 1);
    assert [Tick, Tick][0] == Tick && [Tick, Tick][1] == Tick;
  }

  /** A process that notifies the one whose message it has not received breaks the invariant. */
  lemma EarlyNotifyHappens()
    ensures IsRun([Calm([0, 1, 2], 0), Calm([1, 2, 0], 0), Calm([2, 0, 1], 1), Asked()],
                  [Tick, Tick, Call(SYSCALL_SEND, 2, 0, 0, 0)])
    ensures CanCall(Asked()) && SelectsWaitHead(Asked(), 1)
    ensures !Inv(Notify(Asked(), Some(2), 1))
  {
    AskedRun();
    AskedSelects();
    hide IsRun, Inv, Notify;
    NotifyExact(Asked(), 1);
  }
}
