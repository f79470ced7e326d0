/**
  No client waits for ever: how many calls of the server and of the client it serves, and
  how many elections, can pass before a request is answered, if programs make their calls.
 */
module ClientProgress {
  import opened SeqLists
  import opened IpcState
  import opened IpcInvariant
  import R = IpcRuns
  import opened IpcMessages
  import opened RoundRobin
  import opened ClientServer

  /** The client has made its request and has not got the reply. */
  ghost predicate Asking(w: World, c: Tid) {
    && c in w.clients && c in w.cpc && c < |w.k.th|
    && (w.cpc[c] == ToCollect || (w.cpc[c] == ToThank && w.k.th[c].receiving))
  }

  /** Those whose calls bring the service forward. */
  ghost predicate Works(w: World, served: Option<Tid>, t: Tid) {
    t == w.sv || served == Some(t)
  }

  /** How many calls the service under way still takes at most. */
  ghost function Left(w: World, served: Option<Tid>): nat {
    match served
    case None => 0
    case Some(o) =>
      (match w.spc case ToAcknowledge => 2 case ToReply => 1 case _ => 0)
      + (if o in w.cpc && w.cpc[o] == ToCollect then 2 else 1)
  }

  /** And how many until `c` is answered: five for each request before its own. */
  ghost function Rank(w: World, served: Option<Tid>, c: Tid): nat {
    if served == Some(c) then Left(w, served)
    else if SERVER in w.k.wait && c in w.k.wait[SERVER] then Left(w, served) + 5 * IndexOf(w.k.wait[SERVER], c) + 5
    else 0
  }

  lemma AskingQueued(w: World, served: Option<Tid>, c: Tid)
    requires Good(w, served) && Asking(w, c) && served != Some(c)
    ensures SERVER in w.k.wait && c in w.k.wait[SERVER] && w.k.th[c].sending && w.k.th[c].sendTo == Some(SERVER)
    ensures w.k.th[c].run == Blocked
  {
    hide Acyclic, Ledger, NoRepeats, Membership, NoMissedRendezvous;
    CastFacts(w);
    ServerKnown(w);
    assert NotServed(w.k.th[c], w.cpc[c]);
    assert Placed(w.k, c);
  }

  /** Before its reply comes, the server or the client it serves can run. */
  lemma WorkerReady(w: World, served: Option<Tid>, c: Tid) returns (t: Tid)
    requires Good(w, served) && Asking(w, c)
    ensures Works(w, served, t) && t in w.k.ready && t < |w.k.th|
  {
    hide Acyclic, Ledger, Cast, AllPlaced, NoRepeats, Membership, NoMissedRendezvous;
    CastFacts(w);
    t := w.sv;
    if served == None {
      AskingQueued(w, served, c);
      ListenerHasNoQueue(w, c);
    } else if w.k.th[w.sv].run == Blocked {
      t := served.value;
    }
    ReadyQueued(w.k, t);
  }

  lemma ReadyQueued(s: State, t: Tid)
    requires Inv(s) && t < |s.th|
    ensures t in s.ready <==> s.th[t].run == Ready
  {
    assert Placed(s, t);
  }

  lemma ReadyBounds(s: State, t: Tid)
    requires Inv(s) && t in s.ready
    ensures t < |s.th| && IndexOf(s.ready, t) < |s.th|
  {
    hide Placed, Membership, NoMissedRendezvous, Acyclic;
    NoDupLength(s.ready, |s.th|);
  }

  /** Different numbers below `n` are at most `n`. */
  lemma NoDupLength(q: seq<nat>, n: nat)
    requires NoDup(q) && forall t :: t in q ==> t < n
    ensures |q| <= n
  {
    var a := set t | t in q;
    SetSize(q);
    SizeBelow(a, n);
  }

  // ---- one call ----

  /** A call of the server or of the client it serves brings `c` closer; no other call sets it back. */
  ghost predicate Nearer(w: World, w2: World, served: Option<Tid>, served2: Option<Tid>, c: Tid) {
    && Rank(w2, served2, c) <= Rank(w, served, c)
    && (Works(w, served, w.k.cur) ==> Rank(w2, served2, c) < Rank(w, served, c))
    && (!Works(w, served, w.k.cur) ==> served2 == served)
  }

  lemma ServerNearer(w: World, w2: World, served: Option<Tid>, served2: Option<Tid>, c: Tid)
    requires Good(w, served) && w.k.cur == w.sv && Asking(w, c) && Moves(w, w2, served, served2)
    ensures Nearer(w, w2, served, served2, c)
  {
    hide Good, Asking;
    GoodCast(w, served);
    if served != Some(c) {
      AskingQueued(w, served, c);
      var q := w.k.wait[SERVER];
      if q[0] != c { IndexTail(q, c); }
    }
  }

  lemma IndexTail<T>(q: seq<T>, c: T)
    requires c in q && q[0] != c
    ensures c in q[1..] && IndexOf(q[1..], c) == IndexOf(q, c) - 1
  {
    assert q == [q[0]] + q[1..];
  }

  lemma SendNearer(w: World, w2: World, served: Option<Tid>, served2: Option<Tid>, c: Tid)
    requires Good(w, served) && w.k.cur in w.clients && w.cpc[w.k.cur] == ToSend && Asking(w, c)
    requires Moves(w, w2, served, served2)
    ensures Nearer(w, w2, served, served2, c)
  {
    hide Inv, Acyclic, Ledger;
    CastFacts(w);
    assert served != Some(w.k.cur);
    if served != Some(c) {
      AskingQueued(w, served, c);
      ListenerHasNoQueue(w, c);
      IndexAppend(w.k.wait[SERVER], w.k.cur, c);
    }
  }

  lemma Agreed(w: World, served: Option<Tid>, c: Tid)
    requires Good(w, served) && c in w.clients && served != Some(c)
    ensures c < |w.k.th| && c in w.cpc && NotServed(w.k.th[c], w.cpc[c])
  {
  }

  /** Only the client being served waits for a reply. */
  lemma AnswerAwaited(w: World, served: Option<Tid>, c: Tid)
    requires Good(w, served) && Asking(w, c) && w.cpc[c] == ToThank
    ensures served == Some(c)
  {
    hide Good;
    if served != Some(c) { Agreed(w, served, c); }
  }

  lemma CollectFacts(w: World, w2: World, served: Option<Tid>, served2: Option<Tid>)
    requires w.k.cur != w.sv && w.k.cur in w.cpc && w.cpc[w.k.cur] == ToCollect && w.sv < |w.k.th|
    requires Moves(w, w2, served, served2)
    ensures served == Some(w.k.cur) && (served2 == served || served2 == None)
    ensures SERVER in w.k.wait && SERVER in w2.k.wait && w2.k.wait[SERVER] == w.k.wait[SERVER]
    ensures w2.spc == w.spc && w2.cpc == w.cpc[w.k.cur := ToThank]
  {
  }

  lemma CollectNearer(w: World, w2: World, served: Option<Tid>, served2: Option<Tid>, c: Tid)
    requires Good(w, served) && Good(w2, served2) && w.k.cur in w.clients && w.cpc[w.k.cur] == ToCollect
    requires Asking(w, c) && Asking(w2, c) && Moves(w, w2, served, served2)
    ensures Nearer(w, w2, served, served2, c)
  {
    hide Good, Asking, Moves;
    GoodCast(w, served);
    CollectFacts(w, w2, served, served2);
    if c == w.k.cur {
      AnswerAwaited(w2, served2, c);
    } else {
      AskingQueued(w, served, c);
    }
  }

  lemma ThankNearer(w: World, w2: World, served: Option<Tid>, served2: Option<Tid>, c: Tid)
    requires Good(w, served) && w.k.cur in w.clients && w.cpc[w.k.cur] == ToThank && Asking(w, c)
    requires Moves(w, w2, served, served2)
    ensures Nearer(w, w2, served, served2, c)
  {
    hide Inv, Acyclic, Ledger;
    CastFacts(w);
    Runner(w, served);
    if served != Some(c) { AskingQueued(w, served, c); }
  }

  lemma CallNearer(w: World, w2: World, served: Option<Tid>, served2: Option<Tid>, c: Tid)
    requires Good(w, served) && Good(w2, served2) && Runs(w)
    requires Asking(w, c) && Asking(w2, c) && Moves(w, w2, served, served2)
    ensures Nearer(w, w2, served, served2, c)
  {
    hide Good, Moves, Nearer, Asking;
    GoodCast(w, served);
    if w.k.cur == w.sv {
      ServerNearer(w, w2, served, served2, c);
    } else {
      match w.cpc[w.k.cur]
      case ToSend => SendNearer(w, w2, served, served2, c);
      case ToCollect => CollectNearer(w, w2, served, served2, c);
      case ToThank => ThankNearer(w, w2, served, served2, c);
    }
  }

  lemma GoodCast(w: World, served: Option<Tid>)
    requires Good(w, served)
    ensures WellFormed(w.k) && w.cpc.Keys == w.clients && w.sv < |w.k.th| && w.sv !in w.clients
    ensures w.spc != ServerEnd && forall c :: c in w.clients ==> w.cpc[c] != ClientEnd
  {
    NobodyEnds(w, served);
  }

  // ---- one step, clock or call ----

  ghost function Act(w: World, ch: Choice): R.Action
    requires WellFormed(w.k) && (ch.Run? ==> Runs(w))
  {
    if ch.Clock? then R.Tick else Request(w, ch)
  }

  /** The step ends a turn: a thread is elected. */
  ghost predicate Turn(w: World, ch: Choice) {
    WellFormed(w.k) && (ch.Run? ==> Runs(w)) && CanStep(w.k, Act(w, ch)) && Elects(w.k, Act(w, ch))
  }

  lemma StepIs(w: World, ch: Choice, served: Option<Tid>)
    requires Good(w, served) && (ch.Run? ==> Runs(w)) && CanNext(w, ch)
    ensures WellFormed(w.k) && CanStep(w.k, Act(w, ch)) && Next(w, ch).k == R.Step(w.k, Act(w, ch))
  {
    hide Inv, Acyclic, Agreement, Ledger, Cast, R.Step, Recorded, Request, Advance;
    if ch.Run? { NextAfter(w, ch, served); }
  }

  /** A thread that is ready stays so until it calls. */
  lemma StaysReady(w: World, ch: Choice, served: Option<Tid>, served2: Option<Tid>, t: Tid)
    requires Good(w, served) && (ch.Run? ==> Runs(w)) && CanNext(w, ch) && Good(Next(w, ch), served2)
    requires ch.Run? ==> Calm(w, Next(w, ch), served) && t != w.k.cur
    requires t in w.k.ready
    ensures t in Next(w, ch).k.ready && |Next(w, ch).k.th| == |w.k.th|
  {
    hide Acyclic, Agreement, Ledger, Cast, AllPlaced, NoRepeats, Membership, NoMissedRendezvous;
    ReadyBounds(w.k, t);
    ReadyQueued(w.k, t);
    ClockFields(w, ch);
    hide Next, CanNext;
    ReadyQueued(Next(w, ch).k, t);
  }

  lemma ClockFields(w: World, ch: Choice)
    requires CanNext(w, ch)
    ensures ch.Clock? ==> var w2 := Next(w, ch);
      && w2.k.th == w.k.th && w2.k.wait == w.k.wait && w2.spc == w.spc && w2.cpc == w.cpc
      && w2.clients == w.clients && w2.sv == w.sv && w2.h == w.h
  {
  }

  /** The place of a ready thread over one step. */
  lemma TurnAdvances(w: World, ch: Choice, served: Option<Tid>, w2: World, t: Tid)
    requires Good(w, served) && (ch.Run? ==> Runs(w)) && CanNext(w, ch) && w2 == Next(w, ch)
    requires t in w.k.ready && t in w2.k.ready
    ensures Turn(w, ch) ==> w2.k.cur == t || IndexOf(w2.k.ready, t) < IndexOf(w.k.ready, t)
    ensures !Turn(w, ch) ==> IndexOf(w2.k.ready, t) == IndexOf(w.k.ready, t)
  {
    StepIs(w, ch, served);
    hide Good, CanNext, Next, R.Step, Act, Elects, WellFormed, CanStep;
    StepAdvances(w.k, Act(w, ch), t);
  }

  /** A tick changes nothing for the client. */
  lemma TickRank(w: World, ch: Choice, served: Option<Tid>, c: Tid)
    requires ch.Clock? && CanNext(w, ch)
    ensures Rank(Next(w, ch), served, c) == Rank(w, served, c) && Next(w, ch).sv == w.sv
  {
    ClockFields(w, ch);
    hide Next;
  }

  /** What a step that is no call of the server or its client leaves to them. */
  lemma OtherStep(w: World, ch: Choice, served: Option<Tid>, w2: World, served2: Option<Tid>, c: Tid, t: Tid)
    requires Good(w, served) && (ch.Run? ==> Runs(w)) && CanNext(w, ch) && w2 == Next(w, ch) && Good(w2, served2)
    requires w.sv < |w.k.th|
    requires if ch.Run? then Moves(w, w2, served, served2) && Calm(w, w2, served) else served2 == served
    requires !(ch.Run? && Works(w, served, w.k.cur)) && Works(w, served, t) && t in w.k.ready
    requires Asking(w, c) && Asking(w2, c)
    ensures Works(w2, served2, t) && t in w2.k.ready && |w2.k.th| == |w.k.th|
    ensures Rank(w2, served2, c) <= Rank(w, served, c)
  {
    hide Good, CanNext, Moves, Next, Rank, Runs, Asking;
    StaysReady(w, ch, served, served2, t);
    if ch.Run? {
      CallNearer(w, w2, served, served2, c);
    } else {
      TickRank(w, ch, served, c);
    }
  }

  // ---- whole runs ----

  /** The elections among the steps from `i` up to `j`. */
  ghost function Turns(ws: seq<World>, chs: seq<Choice>, i: nat, j: nat): nat
    requires i <= j <= |chs| < |ws|
    decreases j - i
  {
    if i == j then 0 else Turns(ws, chs, i + 1, j) + if Turn(ws[i], chs[i]) then 1 else 0
  }

  ghost predicate Program(w: World, t: Tid) {
    t == w.sv || t in w.clients
  }

  /** How often `t` is elected in the steps from `i` up to `j`. */
  ghost function Picks(ws: seq<World>, chs: seq<Choice>, t: Tid, i: nat, j: nat): nat
    requires i <= j <= |chs| < |ws|
  {
    if i == j then 0
    else Picks(ws, chs, t, i, j - 1) + if Turn(ws[j - 1], chs[j - 1]) && ws[j].k.cur == t then 1 else 0
  }

  /** `t` makes no call in these steps. */
  ghost predicate Silent(ws: seq<World>, chs: seq<Choice>, t: Tid, i: nat, j: nat)
    requires i <= j <= |chs| < |ws|
  {
    forall k :: i <= k < j ==> !(chs[k].Run? && ws[k].k.cur == t)
  }

  /** No program is elected more than `m` times on end without making a call. */
  ghost predicate Fair(ws: seq<World>, chs: seq<Choice>, m: nat)
    requires |ws| == |chs| + 1
  {
    forall t: Tid, i: nat, j: nat :: i <= j <= |chs| && Program(ws[i], t) && Silent(ws, chs, t, i, j) ==>
      Picks(ws, chs, t, i, j) <= m
  }

  lemma RunLength(ws: seq<World>, chs: seq<Choice>)
    requires IsWorldRun(ws, chs)
    ensures |ws| == |chs| + 1
  {
  }

  lemma RunNext(ws: seq<World>, chs: seq<Choice>, i: nat, served: Option<Tid>)
    requires IsWorldRun(ws, chs) && i < |chs| && Good(ws[i], served)
    ensures chs[i].Run? ==> WellFormed(ws[i].k) && Runs(ws[i])
    ensures CanNext(ws[i], chs[i]) ==> ws[i + 1] == Next(ws[i], chs[i])
  {
    hide Agreement, Ledger, Cast, Next, Start, Runs, CanNext;
  }

  ghost function Times(a: nat, n: nat): nat {
    a * n
  }

  lemma TimesGrows(a: nat, b: nat, n: nat)
    ensures a <= b ==> Times(a, n) <= Times(b, n)
    ensures a < b ==> Times(a, n) + n <= Times(b, n)
  {
    if a < b { assert (a + 1) * n <= b * n; }
  }

  lemma TimesNext(a: nat, n: nat)
    ensures Times(a + 1, n) == Times(a, n) + n
  {
  }

  /** The turns before each of `a` calls: every ready thread may come first, and once more after each vain turn. */
  ghost function Spell(a: nat, m: nat, n: nat): nat {
    Times(a, Times(m + 1, n) + 1)
  }

  lemma SpellGrows(a: nat, b: nat, m: nat, n: nat)
    ensures a <= b ==> Spell(a, m, n) <= Spell(b, m, n)
    ensures a < b ==> Spell(a, m, n) + Times(m, n) + n + 1 <= Spell(b, m, n)
  {
    TimesGrows(a, b, Times(m + 1, n) + 1);
    TimesNext(m, n);
  }

  /** A span of a run in which `t` was silent, from `start` to `i`, and how often it was elected in it. */
  ghost predicate Vain(ws: seq<World>, chs: seq<Choice>, t: Tid, start: nat, i: nat, u: nat) {
    && start <= i <= |chs| < |ws| && Program(ws[start], t)
    && Silent(ws, chs, t, start, i) && Picks(ws, chs, t, start, i) == u
  }

  lemma VainStarts(ws: seq<World>, chs: seq<Choice>, t: Tid, i: nat)
    requires i <= |chs| < |ws| && Program(ws[i], t)
    ensures Vain(ws, chs, t, i, i, 0)
  {
  }

  lemma VainGoesOn(ws: seq<World>, chs: seq<Choice>, t: Tid, start: nat, i: nat, u: nat)
    requires Vain(ws, chs, t, start, i, u) && i < |chs| && !(chs[i].Run? && ws[i].k.cur == t)
    ensures Vain(ws, chs, t, start, i + 1, if Turn(ws[i], chs[i]) && ws[i + 1].k.cur == t then u + 1 else u)
  {
    hide Turn, Program;
  }

  lemma VainBound(ws: seq<World>, chs: seq<Choice>, m: nat, t: Tid, start: nat, i: nat, u: nat)
    requires |ws| == |chs| + 1 && Fair(ws, chs, m) && Vain(ws, chs, t, start, i, u)
    ensures u <= m
  {
    hide Silent, Picks, Program;
  }

  /**
    While `c` waits, and `t` of the two who serve it is ready and was elected `u` times in
    vain, this many turns can pass at most.
   */
  lemma {:induction false} TurnsBound(ws: seq<World>, chs: seq<Choice>, m: nat, start: nat, i: nat, j: nat, u: nat,
                                      served: Option<Tid>, c: Tid, t: Tid)
    requires |ws| == |chs| + 1 && IsWorldRun(ws, chs) && Fair(ws, chs, m) && i <= j <= |chs| && Good(ws[i], served)
    requires forall k :: i <= k <= j ==> Asking(ws[k], c)
    requires Works(ws[i], served, t) && t in ws[i].k.ready && Vain(ws, chs, t, start, i, u) && u <= m
    ensures var n := |ws[i].k.th|;
      Turns(ws, chs, i, j) <= Spell(Rank(ws[i], served, c), m, n) + Times(m - u, n) + IndexOf(ws[i].k.ready, t) + 1
    decreases j - i
  {
    hide Good, IsWorldRun, Fair, Vain, Program, Asking, Rank, Spell, Times, Works, Turn, Runs, CanNext, Next, Moves, Calm;
    if i < j {
      RunNext(ws, chs, i, served);
      var w, w2, n := ws[i], ws[i + 1], |ws[i].k.th|;
      GoodCast(w, served);
      var served2 := NextGood(w, chs[i], served);
      if chs[i].Run? && Works(w, served, w.k.cur) {
        CallStep(w, w2, served, served2, c);
        var t2 := WorkerReady(w2, served2, c);
        WorkerProgram(w2, served2, t2);
        VainStarts(ws, chs, t2, i + 1);
        TurnsBound(ws, chs, m, i + 1, i + 1, j, 0, served2, c, t2);
        GoodReady(w2, served2, t2);
        SpellGrows(Rank(w2, served2, c), Rank(w, served, c), m, n);
      } else {
        OtherStep(w, chs[i], served, w2, served2, c, t);
        TurnAdvances(w, chs[i], served, w2, t);
        VainGoesOn(ws, chs, t, start, i, u);
        var picked := Turn(w, chs[i]) && w2.k.cur == t;
        var u2 := if picked then u + 1 else u;
        VainBound(ws, chs, m, t, start, i + 1, u2);
        TurnsBound(ws, chs, m, start, i + 1, j, u2, served2, c, t);
        SpellGrows(Rank(w2, served2, c), Rank(w, served, c), m, n);
        if picked {
          GoodReady(w2, served2, t);
          TimesNext(m - u2, n);
        }
      }
    }
  }

  lemma WorkerProgram(w: World, served: Option<Tid>, t: Tid)
    requires Good(w, served) && Works(w, served, t)
    ensures Program(w, t)
  {
    ServedClient(w, served);
  }

  lemma CallStep(w: World, w2: World, served: Option<Tid>, served2: Option<Tid>, c: Tid)
    requires Good(w, served) && Good(w2, served2) && WellFormed(w.k) && Runs(w) && Works(w, served, w.k.cur)
    requires Asking(w, c) && Asking(w2, c) && Moves(w, w2, served, served2) && Calm(w, w2, served)
    ensures Rank(w2, served2, c) < Rank(w, served, c) && |w2.k.th| == |w.k.th|
  {
    hide Good, Moves, Asking, Rank, Works, Runs;
    CallNearer(w, w2, served, served2, c);
  }

  lemma GoodReady(w: World, served: Option<Tid>, t: Tid)
    requires Good(w, served) && t in w.k.ready
    ensures IndexOf(w.k.ready, t) < |w.k.th|
  {
    hide Acyclic, Agreement, Ledger, Cast;
    ReadyBounds(w.k, t);
  }

  // ---- the bound, and what ends the wait ----

  /** Who queues for the server is a client that is not being served. */
  lemma QueuedClient(w: World, served: Option<Tid>, u: Tid)
    requires Good(w, served) && SERVER in w.k.wait && u in w.k.wait[SERVER]
    ensures u in w.clients && served != Some(u)
  {
    hide Acyclic, Ledger, NoRepeats, Membership, NoMissedRendezvous;
    CastFacts(w);
    assert Placed(w.k, u);
    InCast(w, u);
  }

  /** Five calls for each client are enough. */
  lemma RankBound(w: World, served: Option<Tid>, c: Tid)
    requires Good(w, served) && Asking(w, c)
    ensures Rank(w, served, c) <= 5 * |w.clients|
  {
    hide Good, Asking;
    ServedClient(w, served);
    if served == Some(c) {
      SubsetSize({c}, w.clients);
    } else {
      AskingQueued(w, served, c);
      QueueBound(w, served, w.k.wait[SERVER]);
    }
  }

  lemma QueueBound(w: World, served: Option<Tid>, q: seq<Tid>)
    requires Good(w, served) && SERVER in w.k.wait && q == w.k.wait[SERVER]
    ensures |q| + (if served.Some? then 1 else 0) <= |w.clients|
  {
    hide Good, NoDup;
    QueueNoDup(w, served);
    ServedClient(w, served);
    forall u | u in q ensures u in w.clients && served != Some(u) { QueuedClient(w, served, u); }
    MembersBound(q, served, w.clients);
  }

  lemma MembersBound<T>(q: seq<T>, other: Option<T>, a: set<T>)
    requires NoDup(q) && (forall u :: u in q ==> u in a && other != Some(u)) && (other.Some? ==> other.value in a)
    ensures |q| + (if other.Some? then 1 else 0) <= |a|
  {
    SetSize(q);
    var members := set u | u in q;
    match other
    case Some(o) =>
      assert |members + {o}| == |q| + 1;
      SubsetSize(members + {o}, a);
    case None => SubsetSize(members, a);
  }

  lemma QueueNoDup(w: World, served: Option<Tid>)
    requires Good(w, served) && SERVER in w.k.wait
    ensures NoDup(w.k.wait[SERVER])
  {
  }

  lemma ServedClient(w: World, served: Option<Tid>)
    requires Good(w, served)
    ensures served.Some? ==> served.value in w.clients
  {
  }

  /** The wait ends with exactly one more reply. */
  ghost predicate Answered(w: World, w2: World, c: Tid) {
    && c < |w.k.th| && w.k.th[c].proc.Some?
    && var p := w.k.th[c].proc.value;
      p in w.h.got && p in w2.h.got && |w2.h.got[p]| == |w.h.got[p]| + 1
  }

  lemma AskingEnds(w: World, ch: Choice, served: Option<Tid>, w2: World, served2: Option<Tid>, c: Tid)
    requires Good(w, served) && (ch.Run? ==> Runs(w)) && CanNext(w, ch) && w2 == Next(w, ch) && Good(w2, served2)
    requires w.sv < |w.k.th|
    requires ch.Run? ==> Moves(w, w2, served, served2) && Calm(w, w2, served)
    requires Asking(w, c) && !Asking(w2, c)
    ensures Answered(w, w2, c)
  {
    StillAsking(w, ch, served, w2, served2, c);
    OwedBefore(w, c);
    Paid(w2, served2, c);
    StepIs(w, ch, served);
    StepMembers(w.k, Act(w, ch));
    AccountOf(w, served, c);
    AccountOf(w2, served2, c);
  }

  lemma AccountOf(w: World, served: Option<Tid>, c: Tid)
    requires Good(w, served) && c in w.clients
    ensures SERVER in w.h.got && Account(w, served, c) && c < |w.k.th| && w.k.th[c].proc.Some?
  {
  }

  /** A client that is not being served goes on waiting. */
  lemma StillAsking(w: World, ch: Choice, served: Option<Tid>, w2: World, served2: Option<Tid>, c: Tid)
    requires Good(w, served) && (ch.Run? ==> Runs(w)) && CanNext(w, ch) && w2 == Next(w, ch) && Good(w2, served2)
    requires w.sv < |w.k.th|
    requires ch.Run? ==> Moves(w, w2, served, served2) && Calm(w, w2, served)
    requires Asking(w, c) && !Asking(w2, c)
    ensures ch.Run? && served == Some(c) && c in w2.clients
  {
    hide Good, CanNext, Next;
    GoodCast(w, served);
    GoodCast(w2, served2);
    ClockFields(w, ch);
    if ch.Run? && served != Some(c) {
      AskingQueued(w, served, c);
      UnservedCollects(w, served, c);
      CallerQuiet(w, served);
      CallKeepsPc(w, w2, served, served2, c);
    }
  }

  lemma UnservedCollects(w: World, served: Option<Tid>, c: Tid)
    requires Good(w, served) && Asking(w, c) && served != Some(c)
    ensures w.cpc[c] == ToCollect
  {
    hide Good;
    Agreed(w, served, c);
  }

  lemma CallerQuiet(w: World, served: Option<Tid>)
    requires Good(w, served)
    ensures w.k.cur < |w.k.th| && w.k.th[w.k.cur].run == Ready
  {
    Runner(w, served);
  }

  lemma CallKeepsPc(w: World, w2: World, served: Option<Tid>, served2: Option<Tid>, c: Tid)
    requires w.sv < |w.k.th| && Moves(w, w2, served, served2) && c in w.cpc && c != w.k.cur
    ensures c in w2.cpc && w2.cpc[c] == w.cpc[c]
  {
  }

  lemma OwedBefore(w: World, c: Tid)
    requires Good(w, Some(c)) && Asking(w, c)
    ensures w.sv < |w.k.th| && Owed(w, c, Some(c))
  {
    hide Inv, Acyclic, Ledger;
  }

  lemma Paid(w: World, served: Option<Tid>, c: Tid)
    requires Good(w, served) && c in w.clients && !Asking(w, c)
    ensures w.sv < |w.k.th| && !Owed(w, c, served)
  {
    hide Inv, Acyclic, Ledger;
  }

  /** The turns of the run after which a waiting client must have been answered. */
  ghost function Patience(w: World, m: nat): nat {
    5 * |w.clients| * ((m + 1) * |w.k.th| + 1) + (m + 1) * |w.k.th|
  }

  /**
    If no program is elected more than `m` times on end without making a call, a client whose
    request is made gets its reply before more than `Patience` turns have passed, whatever
    the others do and whenever the clock ticks.
   */
  lemma RequestAnswered(ws: seq<World>, chs: seq<Choice>, m: nat, i: nat, j: nat, c: Tid) returns (k: nat)
    requires |ws| == |chs| + 1 && IsWorldRun(ws, chs) && Fair(ws, chs, m) && i <= j <= |chs| && Asking(ws[i], c)
    requires Turns(ws, chs, i, j) > Patience(ws[i], m)
    ensures i <= k < j && Asking(ws[k], c) && !Asking(ws[k + 1], c) && Answered(ws[k], ws[k + 1], c)
  {
    hide Good, IsWorldRun, Fair, Asking, Turns, Patience, Answered;
    if forall l :: i <= l <= j ==> Asking(ws[l], c) { WaitBound(ws, chs, m, i, j, c); }
    k := LastAsking(ws, i, j, c);
    EndsAnswered(ws, chs, k, c);
  }

  lemma WaitBound(ws: seq<World>, chs: seq<Choice>, m: nat, i: nat, j: nat, c: Tid)
    requires |ws| == |chs| + 1 && IsWorldRun(ws, chs) && Fair(ws, chs, m) && i <= j <= |chs|
    requires forall l :: i <= l <= j ==> Asking(ws[l], c)
    ensures Turns(ws, chs, i, j) <= Patience(ws[i], m)
  {
    hide Good, IsWorldRun, Fair, Asking, Turns, Rank, Spell, Times, Patience, Vain, Works, Program;
    var served := RunGood(ws, chs, i);
    var t := WorkerReady(ws[i], served, c);
    WorkerProgram(ws[i], served, t);
    VainStarts(ws, chs, t, i);
    TurnsBound(ws, chs, m, i, i, j, 0, served, c, t);
    RankBound(ws[i], served, c);
    GoodReady(ws[i], served, t);
    SpellGrows(Rank(ws[i], served, c), 5 * |ws[i].clients|, m, |ws[i].k.th|);
    PatienceIs(ws[i], m);
  }

  lemma PatienceIs(w: World, m: nat)
    ensures Patience(w, m) == Spell(5 * |w.clients|, m, |w.k.th|) + Times(m, |w.k.th|) + |w.k.th|
  {
    TimesNext(m, |w.k.th|);
  }

  lemma {:induction false} LastAsking(ws: seq<World>, i: nat, j: nat, c: Tid) returns (k: nat)
    requires i <= j < |ws| && Asking(ws[i], c) && !forall m :: i <= m <= j ==> Asking(ws[m], c)
    ensures i <= k < j && Asking(ws[k], c) && !Asking(ws[k + 1], c)
    decreases j - i
  {
    k := i;
    if Asking(ws[i + 1], c) { k := LastAsking(ws, i + 1, j, c); }
  }

  lemma EndsAnswered(ws: seq<World>, chs: seq<Choice>, k: nat, c: Tid)
    requires IsWorldRun(ws, chs) && k < |chs| && Asking(ws[k], c) && !Asking(ws[k + 1], c)
    ensures Answered(ws[k], ws[k + 1], c)
  {
    hide Good, Asking, Runs, CanNext, Next, Moves, Calm, Start, Answered;
    var served := RunGood(ws, chs, k);
    RunNext(ws, chs, k, served);
    var served2 := NextGood(ws[k], chs[k], served);
    GoodCast(ws[k], served);
    AskingEnds(ws[k], chs[k], served, ws[k + 1], served2, c);
  }

  // ---- runs in which every turn is used ----

  /** A program that is elected makes a call before the clock ends its turn. */
  ghost predicate Prompt(ws: seq<World>, chs: seq<Choice>)
    requires |ws| == |chs| + 1
  {
    forall k {:trigger Turn(ws[k], chs[k])} ::
      0 <= k < |chs| - 1 && Turn(ws[k], chs[k]) && WellFormed(ws[k + 1].k) && Runs(ws[k + 1]) ==> chs[k + 1].Run?
  }

  lemma ProgramRuns(w: World, served: Option<Tid>, t: Tid)
    requires Good(w, served) && Program(w, t) && w.k.cur == t
    ensures WellFormed(w.k) && Runs(w)
  {
    GoodCast(w, served);
  }

  lemma {:induction false} SamePrograms(ws: seq<World>, chs: seq<Choice>, i: nat, j: nat, t: Tid)
    requires |ws| == |chs| + 1 && IsWorldRun(ws, chs) && i <= j <= |chs| && Program(ws[i], t)
    ensures Program(ws[j], t)
    decreases j - i
  {
    hide Good, IsWorldRun, Next, CanNext, Runs, Moves, Calm, Program, Asking;
    if i < j {
      SamePrograms(ws, chs, i, j - 1, t);
      var served := RunGood(ws, chs, j - 1);
      RunNext(ws, chs, j - 1, served);
      var served2 := NextGood(ws[j - 1], chs[j - 1], served);
      ProgramStays(ws[j - 1], chs[j - 1], served, t);
    }
  }

  lemma ProgramStays(w: World, ch: Choice, served: Option<Tid>, t: Tid)
    requires CanNext(w, ch) && (ch.Run? ==> Calm(w, Next(w, ch), served)) && Program(w, t)
    ensures Program(Next(w, ch), t)
  {
    ClockFields(w, ch);
    hide CanNext, Next;
  }

  /** An election of a program that is followed by another step is followed by its call. */
  lemma PickedCalls(ws: seq<World>, chs: seq<Choice>, i: nat, k: nat, t: Tid)
    requires |ws| == |chs| + 1 && IsWorldRun(ws, chs) && Prompt(ws, chs) && i <= k < |chs| - 1 && Program(ws[i], t)
    requires Turn(ws[k], chs[k]) && ws[k + 1].k.cur == t
    ensures chs[k + 1].Run?
  {
    SamePrograms(ws, chs, i, k + 1, t);
    var served := RunGood(ws, chs, k + 1);
    ProgramRuns(ws[k + 1], served, t);
    hide Good, IsWorldRun, Turn, Runs, WellFormed;
  }

  /** So they are fair, with one vain turn allowed: the last one of a span. */
  lemma PromptFair(ws: seq<World>, chs: seq<Choice>)
    requires |ws| == |chs| + 1 && IsWorldRun(ws, chs) && Prompt(ws, chs)
    ensures Fair(ws, chs, 1)
  {
    hide IsWorldRun, Prompt, Turn, Program, Silent;
    forall t: Tid, i: nat, j: nat | i <= j <= |chs| && Program(ws[i], t) && Silent(ws, chs, t, i, j)
      ensures Picks(ws, chs, t, i, j) <= 1
    {
      if i < j { NoPicks(ws, chs, t, i, j, j - 1); }
    }
  }

  lemma {:induction false} NoPicks(ws: seq<World>, chs: seq<Choice>, t: Tid, i: nat, j: nat, l: nat)
    requires |ws| == |chs| + 1 && IsWorldRun(ws, chs) && Prompt(ws, chs)
    requires i <= l < j <= |chs| && Program(ws[i], t) && Silent(ws, chs, t, i, j)
    ensures Picks(ws, chs, t, i, l) == 0
    decreases l - i
  {
    hide IsWorldRun, Prompt, Turn, Program;
    if i < l {
      NoPicks(ws, chs, t, i, j, l - 1);
      if Turn(ws[l - 1], chs[l - 1]) && ws[l].k.cur == t { PickedCalls(ws, chs, i, l - 1, t); }
    }
  }

  /** There are such runs of any length, from any start. */
  lemma {:induction false} PromptRunExists(w: World, m: nat) returns (ws: seq<World>, chs: seq<Choice>)
    requires Start(w)
    ensures |chs| == m && |ws| == m + 1 && ws[0] == w && IsWorldRun(ws, chs) && Prompt(ws, chs)
  {
    hide Good, Next, CanNext, Runs, Start, Prompt, IsWorldRun, Moves, Calm;
    if m == 0 {
      ws, chs := [w], [];
      NoSteps(w);
    } else {
      var vs, ds := PromptRunExists(w, m - 1);
      RunLength(vs, ds);
      var served := RunGood(vs, ds, m - 1);
      var last := vs[m - 1];
      GoodCast(last, served);
      var ch := if Runs(last) then Run(0, 0, 0) else Clock;
      var served2 := NextGood(last, ch, served);
      ws, chs := vs + [Next(last, ch)], ds + [ch];
      Extended(vs, ds, ch, ws, chs);
    }
  }

  lemma NoSteps(w: World)
    requires Start(w)
    ensures IsWorldRun([w], []) && Prompt([w], [])
  {
    hide Start;
  }

  lemma Extended(vs: seq<World>, ds: seq<Choice>, ch: Choice, ws: seq<World>, chs: seq<Choice>)
    requires |vs| == |ds| + 1 && IsWorldRun(vs, ds) && Prompt(vs, ds) && CanNext(vs[|ds|], ch)
    requires ws == vs + [Next(vs[|ds|], ch)] && chs == ds + [ch]
    requires WellFormed(vs[|ds|].k) && (ch.Run? <==> Runs(vs[|ds|]))
    ensures IsWorldRun(ws, chs) && Prompt(ws, chs)
  {
    hide Next, CanNext, Runs, Start, Turn;
  }

  /** There are fair runs of any length, from any start. */
  lemma FairRunExists(w: World, m: nat) returns (ws: seq<World>, chs: seq<Choice>)
    requires Start(w)
    ensures |chs| == m && |ws| == m + 1 && ws[0] == w && IsWorldRun(ws, chs) && Fair(ws, chs, 1)
  {
    ws, chs := PromptRunExists(w, m);
    PromptFair(ws, chs);
  }
}
