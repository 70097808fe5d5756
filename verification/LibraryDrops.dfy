/** When the library drops a response: the exact condition for every step, the
    account over every run, and a run of two threads that reaches a drop. */
module LibraryDrops {
  import opened Wrap
  import opened Ledgers
  import opened LibraryThreads
  import opened LibraryThreadsProof

  /** A call holds the kernel's oldest response in its hands and it is not the
      response it waits for. */
  predicate MeetsAnother(s: State, t: nat)
    requires t < |s.pcs|
  {
    && s.d.inbox != []
    && (s.pcs[t].CallMakeRoom? || (s.pcs[t].CallReceive? && s.d.inbox[0].sequence != s.pcs[t].sequence))
  }

  /** That call finds all the places for retained responses taken. */
  predicate Drops(s: State, l: Label) {
    l.Go? && l.thread < |s.pcs| && MeetsAnother(s, l.thread) && |s.d.pending| >= RETAIN_LIMIT
  }

  function DropsIn(s: State, ls: seq<Label>): nat
    decreases |ls|
  {
    if ls == [] then 0 else (if Drops(s, ls[0]) then 1 else 0) + DropsIn(Step(s, ls[0]), ls[1..])
  }

  lemma {:induction false} DeliveryDropsNothing(d: Data, n: nat)
    requires n <= |d.inbox|
    ensures Losses(DeliverHeads(d, n).ledger) == Losses(d.ledger)
    decreases n
  {
    if n > 0 {
      Append(d.ledger, Entry(d.inbox[0], Kept));
      DeliveryDropsNothing(DeliverHead(d), n - 1);
    }
  }

  lemma HandOverDropsNothing(l: Ledger<Msg>, r: nat)
    ensures Losses(HandOver(l, r)) == Losses(l)
  {
    hide Claim, Kepts, Losses;
    if r < |Kepts(l)| {
      ClaimRemoves(l, r);
    }
  }

  lemma PopDropsOnlyTheLost(d: Data, fate: Fate)
    requires d.inbox != []
    ensures Losses(Pop(d, fate).ledger) == Losses(d.ledger) + if fate == Lost then 1 else 0
  {
    hide Losses;
    Append(d.ledger, Entry(d.inbox[0], fate));
  }

  lemma CallDropsExactly(s: State, t: nat)
    requires t < |s.pcs|
    ensures Losses(GoCall(s, t).d.ledger) == Losses(s.d.ledger) + if Drops(s, Go(t)) then 1 else 0
  {
    hide Losses, Pop, HandOver, IndexOf;
    var d, pc := s.d, s.pcs[t];
    if d.inbox != [] {
      PopDropsOnlyTheLost(d, Kept);
      PopDropsOnlyTheLost(d, Claimed);
      PopDropsOnlyTheLost(d, Lost);
    }
    if pc.CallScan? {
      HandOverDropsNothing(d.ledger, |d.delivered| + IndexOf(d.pending, pc.sequence));
    }
  }

  /** A step drops a response if and only if it is a call that meets another
      one's response while 64 are retained; and then it drops one. */
  lemma DropsExactly(s: State, l: Label)
    ensures Losses(Step(s, l).d.ledger) == Losses(s.d.ledger) + if Drops(s, l) then 1 else 0
  {
    hide Losses, Pop, HandOver, IndexOf, DeliverHeads, GoCall, Carries, Fresh, InInbox;
    if l.Go? && l.thread < |s.pcs| {
      CallDropsExactly(s, l.thread);
      if s.d.inbox != [] {
        PopDropsOnlyTheLost(s.d, Kept);
      }
    } else if l.Batch? && l.thread < |s.pcs| && l.n <= |s.d.inbox| {
      DeliveryDropsNothing(s.d, l.n);
    }
  }

  lemma {:induction false} DropsAddUp(s: State, ls: seq<Label>)
    ensures Losses(Run(s, ls).d.ledger) == Losses(s.d.ledger) + DropsIn(s, ls)
    decreases |ls|
  {
    hide Step, Losses, Drops;
    if ls != [] {
      DropsExactly(s, ls[0]);
      DropsAddUp(Step(s, ls[0]), ls[1..]);
    }
  }

  /** In every run, the responses that came up are those that were received,
      are retained, went to a call or are still with the kernel, and one more
      for every time a call met another one's response while 64 were retained. */
  lemma EveryResponseIsAccountedFor(threads: nat, ls: seq<Label>)
    ensures var d := Run(Start(threads), ls).d;
            && |d.pending| <= RETAIN_LIMIT
            && |d.arrived| ==
               |d.delivered| + |d.pending| + |d.matches| + |d.inbox| + DropsIn(Start(threads), ls)
  {
    hide Run, Losses, DropsIn;
    EveryRunIsGood(threads, ls);
    EveryMessageHasOneFate(Run(Start(threads), ls).d.ledger);
    DropsAddUp(Start(threads), ls);
    assert Losses(Start(threads).d.ledger) == 0 by {
      EveryMessageHasOneFate(Start(threads).d.ledger);
    }
  }

  // ---------------------------------------------------------------- a drop

  lemma {:induction false} RunOn(s: State, ls: seq<Label>, l: Label)
    ensures Run(s, ls + [l]) == Step(Run(s, ls), l)
    decreases |ls|
  {
    hide Step;
    if ls == [] {
      assert [l][1..] == [];
    } else {
      assert (ls + [l])[1..] == ls[1..] + [l];
      RunOn(Step(s, ls[0]), ls[1..], l);
    }
  }

  lemma StepReaches(s: State, l: Label)
    requires Reachable(s)
    ensures Reachable(Step(s, l))
  {
    hide Run, Start, Step;
    var threads, ls :| s == Run(Start(threads), ls);
    RunOn(Start(threads), ls, l);
  }

  /** The responses to requests 1 to n, all sent under sequence 1. */
  function Others(n: nat): (ms: seq<Msg>)
    ensures |ms| == n
  {
    seq(n, i requires 0 <= i < n => Msg(i + 1, 1, 0))
  }

  function Retained(n: nat): (l: Ledger<Msg>)
    ensures |l| == n
  {
    seq(n, i requires 0 <= i < n => Entry(Msg(i + 1, 1, 0), Kept))
  }

  function Sequences(n: nat): (r: seq<u32>)
    ensures |r| == n + 1
  {
    [5] + seq(n, _ => 1 as u32)
  }

  /** Thread 1 is in a call: its request 0 is in flight under sequence 5. The
      responses to requests 1 to n have come up since and are retained. */
  function Waiting(n: nat): State {
    State([Idle, CallReceive(0, 5)], 1, FREE,
          Data(Others(n), n, Sequences(n), {0}, [], Others(n), Retained(n), [], [], {}))
  }

  /** Thread 0 has sent one more request and its response has come up. */
  function Offered(n: nat): State {
    var s := Waiting(n);
    var m := Msg(n + 1, 1, 0);
    s.(d := s.d.(sequences := Sequences(n + 1), inFlight := {0, n + 1}, inbox := [m], arrived := Others(n) + [m]))
  }

  lemma ReachableByRun(threads: nat, ls: seq<Label>)
    ensures Reachable(Run(Start(threads), ls))
  {
    hide Run, Start;
  }

  /** Thread 1 has rx_lock and tx_lock and is about to send. */
  function Sending(): State {
    State([Idle, CallSend], 1, 1, Data([], 0, [], {}, [], [], [], [], [], {}))
  }

  lemma CallIsSending()
    ensures Reachable(Sending())
  {
    hide Run, Reachable;
    var s0 := Start(2);
    assert Reachable(s0) by {
      RunOfNothing(s0);
      ReachableByRun(2, []);
    }
    var s1 := Step(s0, Begin(1, CallEnter));
    assert s1.pcs == [Idle, CallEnter];
    var s2 := Step(s1, Go(1));
    assert s2.pcs == [Idle, CallLock];
    var s3 := Step(s2, Go(1));
    assert s3.pcs == [Idle, CallSend];
    StepReaches(s0, Begin(1, CallEnter));
    StepReaches(s1, Go(1));
    StepReaches(s2, Go(1));
  }

  lemma CallIsWaiting()
    ensures Reachable(Waiting(0))
  {
    hide Run, Reachable;
    CallIsSending();
    var s3 := Sending();
    var s4 := Step(s3, Accept(1, 5));
    assert s4.d.inFlight == {0} && s4.d.sequences == Sequences(0) && s4.d.stale == {};
    assert s4.pcs == [Idle, UnlockTx(CallScan(0, 5))];
    var s5 := Step(s4, Go(1));
    assert s5.pcs == [Idle, CallScan(0, 5)];
    var s6 := Step(s5, Go(1));
    assert s6.pcs == [Idle, CallReceive(0, 5)];
    assert s6 == Waiting(0);
    StepReaches(s3, Accept(1, 5));
    StepReaches(s4, Go(1));
    StepReaches(s5, Go(1));
  }

  lemma OneIsOffered(n: nat)
    requires Reachable(Waiting(n))
    ensures Reachable(Offered(n))
  {
    hide Run, Reachable;
    var s0 := Waiting(n);
    var s1 := Step(s0, Begin(0, SubmitEnter(1)));
    var s2 := Step(s1, Go(0));
    assert s2.pcs == [SubmitSend(1, 0), CallReceive(0, 5)];
    var s3 := Step(s2, Accept(0, 1));
    assert Fresh(s2.d, 1);
    assert s3.pcs == [SubmitSend(1, 1), CallReceive(0, 5)];
    assert s3.d.inFlight == {0, n + 1} && s3.d.sequences == Sequences(n + 1);
    var s4 := Step(s3, Go(0));
    var s5 := Step(s4, Go(0));
    assert s5.pcs == [Idle, CallReceive(0, 5)];
    var s6 := Step(s5, Arrive(n + 1, 0));
    assert s6.d.inbox == [Msg(n + 1, 1, 0)];
    assert s6 == Offered(n);
    StepReaches(s0, Begin(0, SubmitEnter(1)));
    StepReaches(s1, Go(0));
    StepReaches(s2, Accept(0, 1));
    StepReaches(s3, Go(0));
    StepReaches(s4, Go(0));
    StepReaches(s5, Arrive(n + 1, 0));
  }

  lemma NoneIsTheAwaited(n: nat)
    ensures !Carries(Others(n), 5)
  {
  }

  /** The call has put the response aside and looks for its own again. */
  function Looking(n: nat): State {
    Waiting(n).(pcs := [Idle, CallScan(0, 5)])
  }

  lemma OneIsPutAside(n: nat)
    requires Reachable(Offered(n)) && n < RETAIN_LIMIT
    ensures Reachable(Looking(n + 1))
  {
    hide Run, Reachable, Carries, IndexOf;
    var s0 := Offered(n);
    var s1 := Step(s0, Go(1));
    assert Others(n) + [Msg(n + 1, 1, 0)] == Others(n + 1);
    assert Retained(n) + [Entry(Msg(n + 1, 1, 0), Kept)] == Retained(n + 1);
    assert s1.pcs == [Idle, Signal(CallClock(0, 5))];
    assert s1.d.inbox == [] && s1.d.inFlight == {0};
    var s2 := Step(s1, Go(1));
    assert s2.pcs == [Idle, CallClock(0, 5)];
    var s3 := Step(s2, Go(1));
    assert s3.pcs == [Idle, CallScan(0, 5)];
    assert s3 == Looking(n + 1);
    StepReaches(s0, Go(1));
    StepReaches(s1, Go(1));
    StepReaches(s2, Go(1));
  }

  lemma OneIsRetained(n: nat)
    requires Reachable(Offered(n)) && n < RETAIN_LIMIT
    ensures Reachable(Waiting(n + 1))
  {
    hide Run, Reachable, Carries;
    OneIsPutAside(n);
    NoneIsTheAwaited(n + 1);
    var s := Step(Looking(n + 1), Go(1));
    assert s.pcs == [Idle, CallReceive(0, 5)];
    assert s == Waiting(n + 1);
    StepReaches(Looking(n + 1), Go(1));
  }

  lemma {:induction false} AnyNumberIsRetained(n: nat)
    requires n <= RETAIN_LIMIT
    ensures Reachable(Waiting(n))
  {
    hide Reachable, Waiting, Offered;
    if n == 0 {
      CallIsWaiting();
    } else {
      AnyNumberIsRetained(n - 1);
      OneIsOffered(n - 1);
      OneIsRetained(n - 1);
    }
  }

  /** A run of two threads comes to a state in which the next step of a call
      drops the response to another thread's request: nothing has been lost until
      then, and afterwards one response is neither with the kernel nor received,
      retained or claimed. The call itself gives up. */
  lemma ACallMayDropAResponse() returns (s: State, m: Msg)
    ensures Reachable(s) && Drops(s, Go(1)) && s.d.inbox == [m] && Losses(s.d.ledger) == 0
    ensures var e := Step(s, Go(1));
            && e.pcs[1] == UnlockRx(Idle) && Losses(e.d.ledger) == 1
            && m in e.d.arrived && m !in Kepts(e.d.ledger) && e.d.matches == [] && e.d.inbox == []
            && |e.d.arrived| == |e.d.delivered| + |e.d.pending| + |e.d.matches| + |e.d.inbox| + 1
  {
    s, m := Offered(RETAIN_LIMIT), Msg(65, 1, 0);
    AnyNumberIsRetained(RETAIN_LIMIT);
    OneIsOffered(RETAIN_LIMIT);
    var e := Step(s, Go(1));
    assert e.d.arrived[RETAIN_LIMIT] == m;
    ReachableIsGood(s);
    StepKeeps(s, Go(1));
    hide Reachable, Step, Losses, Kepts, Messages, Claims;
    EveryMessageHasOneFate(s.d.ledger);
    DropsExactly(s, Go(1));
  }
}
