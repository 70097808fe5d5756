/** What holds in every run of any number of threads: who owns which lock, what
    the semaphore counts, where every response went, and which call gets what. */
module LibraryThreadsProof {
  import opened Wrap
  import opened Ledgers
  import opened LibraryThreads

  // ---------------------------------------------------------------- invariants

  predicate HoldsRx(pc: Pc) {
    match pc
    case ReceiveTake(_) => true
    case ReapTake(_, _, _) => true
    case CallLock => true
    case CallSend => true
    case CallMakeRoom => true
    case CallScan(_, _) => true
    case CallReceive(_, _) => true
    case CallAwait(_, _) => true
    case CallClock(_, _) => true
    case Signal(_) => true
    case Consume(_) => true
    case UnlockRx(_) => true
    case UnlockTx(next) => HoldsRx(next)
    case _ => false
  }

  predicate HoldsTx(pc: Pc) {
    pc.SubmitSend? || pc.CallSend? || pc.UnlockTx?
  }

  /** Continuations that occur. Nothing returns EPROTO. */
  predicate Proper(pc: Pc) {
    match pc
    case Failed => false
    case Signal(next) => next == UnlockRx(Idle) || next == UnlockRx(CallEnter) || next.CallClock?
    case Consume(next) => next == UnlockRx(Idle) || (next.ReapTake? && !next.kernel && 0 < next.done <= next.count)
    case UnlockRx(next) => next.Idle? || next.ReceiveWait? || (next.ReapWait? &&
        0 < next.count) || next.CallEnter? || next.CallPoll?
    case UnlockTx(next) =>
      next.Idle? || next.SubmitWait? || next.CallScan? || next.CallMakeRoom? || next == UnlockRx(Idle)
    case ReapEnter(count) => 0 < count
    case ReapWait(count) => 0 < count
    case ReapTake(count, done, kernel) => done <= count && 0 < count
    case SubmitSend(count, done) => done <= count
    case _ => true
  }

  /** Each lock is owned by exactly the thread that is in a section under it. */
  ghost predicate Locks(s: State) {
    && FREE <= s.rx < |s.pcs| && FREE <= s.tx < |s.pcs|
    && forall t :: 0 <= t < |s.pcs| ==>
         Proper(s.pcs[t]) && (HoldsRx(s.pcs[t]) <==> s.rx == t) && (HoldsTx(s.pcs[t]) <==> s.tx == t)
  }

  /** What the thread under rx_lock is doing. */
  function Owner(s: State): Pc
    requires FREE <= s.rx < |s.pcs|
  {
    if s.rx == FREE then Idle else s.pcs[s.rx]
  }

  /** The semaphore lags by one between a change of the array and its eventfd access. */
  function Skew(pc: Pc): int {
    if pc.Signal? then -1 else if pc.Consume? then 1 else 0
  }

  predicate InFlightOk(d: Data) {
    && (forall id :: id in d.inFlight ==> id < |d.sequences|)
    && (forall i, j :: i in d.inFlight && j in d.inFlight && d.sequences[i] == d.sequences[j] ==> i == j)
  }

  /** m answers a request that the driver took, under its sequence. */
  predicate Answers(d: Data, m: Msg) {
    m.id < |d.sequences| && m.sequence == d.sequences[m.id]
  }

  predicate InboxOk(d: Data) {
    && (forall k :: 0 <= k < |d.inbox| ==> d.inbox[k].id in d.inFlight && Answers(d, d.inbox[k]))
    && (forall j, k :: 0 <= j < k < |d.inbox| ==> d.inbox[j].id != d.inbox[k].id)
  }

  /** Every response came up once. */
  predicate LedgerOk(d: Data) {
    && (forall k :: 0 <= k < |d.ledger| ==> d.ledger[k].message.id !in d.inFlight && Answers(d, d.ledger[k].message))
    && (forall j, k :: 0 <= j < k < |d.ledger| ==> d.ledger[j].message.id != d.ledger[k].message.id)
  }

  /** What arrived is in the ledger or in the kernel, in order; what is meant
      for receivers has been delivered or is retained, in order. */
  predicate OrderOk(d: Data) {
    && d.arrived == Messages(d.ledger) + d.inbox
    && Kepts(d.ledger) == d.delivered + d.pending
    && |d.pending| <= RETAIN_LIMIT
  }

  /** A call took its own response, except when a response with the same
      sequence was retained at the moment the driver took its request. */
  predicate MatchesOk(d: Data) {
    && Claims(d.ledger) == |d.matches|
    && forall k :: 0 <= k < |d.matches| ==>
         var m := d.matches[k];
         && m.call < |d.sequences| && m.message.sequence == d.sequences[m.call]
         && Entry(m.message, Claimed) in d.ledger
         && (m.message.id == m.call <==> m.call !in d.stale)
  }

  predicate StaleOk(d: Data) {
    forall id :: id in d.stale ==> id < |d.sequences|
  }

  predicate DataOk(d: Data) {
    InFlightOk(d) && InboxOk(d) && LedgerOk(d) && OrderOk(d) && MatchesOk(d) && StaleOk(d)
  }

  /** The call, if any, that this thread is waiting for the response of. */
  function Awaited(pc: Pc): (r: Pc) {
    match pc
    case CallScan(_, _) => pc
    case CallReceive(_, _) => pc
    case CallAwait(_, _) => pc
    case CallClock(_, _) => pc
    case Signal(next) => if next.CallClock? then next else Idle
    case UnlockTx(next) => if next.CallScan? then next else Idle
    case _ => Idle
  }

  /** What the owner of rx_lock relies on. */
  predicate CallOk(d: Data, pc: Pc) {
    var a := Awaited(pc);
    && (pc.ReapTake? && pc.kernel ==> d.pending == [])
    && ((a.CallScan? || a.CallReceive? || a.CallAwait? || a.CallClock?) ==>
      && a.id in d.inFlight && a.id < |d.sequences| && d.sequences[a.id] == a.sequence
      && (a.id in d.stale <==> Carries(d.pending, a.sequence))
      && (a.CallReceive? || a.CallAwait? || a.CallClock? ==> !Carries(d.pending, a.sequence)))
  }

  ghost predicate Good(s: State) {
    && Locks(s) && DataOk(s.d)
    && s.d.eventCount == |s.d.pending| + Skew(Owner(s))
    && CallOk(s.d, Owner(s))
  }

  // ---------------------------------------------------------------- data steps

  lemma AdmitKeeps(d: Data, sequence: u32)
    requires DataOk(d) && Fresh(d, sequence)
    ensures DataOk(Admit(d, sequence))
  {
    var e := Admit(d, sequence);
    forall k | 0 <= k < |d.matches|
      ensures e.matches[k].call !in d.stale <==> e.matches[k].message.id == e.matches[k].call
    {
    }
  }

  lemma PopKeeps(d: Data, fate: Fate)
    requires DataOk(d) && d.inbox != []
    ensures InFlightOk(Pop(d, fate)) && InboxOk(Pop(d, fate)) && LedgerOk(Pop(d, fate)) && StaleOk(Pop(d, fate))
    ensures Pop(d, fate).arrived == Messages(Pop(d, fate).ledger) + Pop(d, fate).inbox
    ensures Kepts(Pop(d, fate).ledger) == if fate == Kept then Kepts(d.ledger) + [d.inbox[0]] else Kepts(d.ledger)
    ensures Claims(Pop(d, fate).ledger) == Claims(d.ledger) + if fate == Claimed then 1 else 0
    ensures forall e :: e in d.ledger ==> e in Pop(d, fate).ledger
  {
    hide Messages, Kepts, Claims;
    Append(d.ledger, Entry(d.inbox[0], fate));
    assert Messages(d.ledger) + d.inbox == (Messages(d.ledger) + [d.inbox[0]]) + d.inbox[1..];
    var e := Pop(d, fate);
    forall k | 0 <= k < |e.inbox| ensures e.inbox[k].id in e.inFlight && Answers(e, e.inbox[k]) {
      assert e.inbox[k] == d.inbox[k + 1];
    }
  }

  lemma DeliverKeeps(d: Data)
    requires DataOk(d) && d.inbox != [] && d.pending == []
    ensures DataOk(DeliverHead(d))
  {
    hide Messages, Kepts, Claims;
    PopKeeps(d, Kept);
    assert (d.delivered + []) + [d.inbox[0]] == (d.delivered + [d.inbox[0]]) + [];
    MatchesSurvive(d, DeliverHead(d));
  }

  /** Matches stay good as long as the ledger keeps its claimed entries. */
  lemma MatchesSurvive(d: Data, e: Data)
    requires MatchesOk(d) && e.matches == d.matches && e.stale == d.stale && e.sequences == d.sequences
    requires Claims(e.ledger) == Claims(d.ledger)
    requires forall x :: x in d.ledger ==> x in e.ledger
    ensures MatchesOk(e)
  {
  }

  lemma {:induction false} DeliverManyKeeps(d: Data, n: nat)
    requires DataOk(d) && n <= |d.inbox| && d.pending == []
    ensures DataOk(DeliverHeads(d, n)) && DeliverHeads(d, n).pending == []
    ensures DeliverHeads(d, n).eventCount == d.eventCount
    decreases n
  {
    if n > 0 {
      DeliverKeeps(d);
      DeliverManyKeeps(DeliverHead(d), n - 1);
    }
  }

  lemma RetainKeeps(d: Data)
    requires DataOk(d) && d.inbox != [] && |d.pending| < RETAIN_LIMIT
    ensures DataOk(RetainHead(d))
  {
    hide Messages, Kepts, Claims;
    PopKeeps(d, Kept);
    assert (d.delivered + d.pending) + [d.inbox[0]] == d.delivered + (d.pending + [d.inbox[0]]);
    MatchesSurvive(d, RetainHead(d));
  }

  lemma DropKeeps(d: Data)
    requires DataOk(d) && d.inbox != []
    ensures DataOk(Pop(d, Lost))
  {
    hide Messages, Kepts, Claims;
    PopKeeps(d, Lost);
    MatchesSurvive(d, Pop(d, Lost));
  }

  lemma TakeKeeps(d: Data)
    requires DataOk(d) && d.pending != []
    ensures DataOk(TakeOldest(d))
  {
    hide Messages, Kepts, Claims;
    assert d.delivered + d.pending == (d.delivered + [d.pending[0]]) + d.pending[1..];
    MatchesSurvive(d, TakeOldest(d));
  }

  /** The kernel's response with the sequence of a request in flight is the
      response to that request. */
  lemma ClaimHeadKeeps(d: Data, call: nat)
    requires DataOk(d) && d.inbox != [] && call in d.inFlight && call !in d.stale
    requires d.inbox[0].sequence == d.sequences[call]
    ensures d.inbox[0].id == call && DataOk(ClaimHead(d, call))
  {
    hide Messages, Kepts, Claims;
    PopKeeps(d, Claimed);
    var m := d.inbox[0];
    var e := ClaimHead(d, call);
    assert Answers(d, m);
    forall k | 0 <= k < |e.matches|
      ensures e.matches[k].call < |d.sequences| && e.matches[k].message.sequence == d.sequences[e.matches[k].call]
      ensures Entry(e.matches[k].message, Claimed) in e.ledger
      ensures e.matches[k].message.id == e.matches[k].call <==> e.matches[k].call !in d.stale
    {
      if k < |d.matches| {
        assert e.matches[k] == d.matches[k];
      } else {
        assert e.ledger[|d.ledger|] == Entry(m, Claimed);
      }
    }
  }

  /** A retained response is never the one that a call in progress waits for. */
  lemma ClaimPendingKeeps(d: Data, call: nat, index: nat)
    requires DataOk(d) && index < |d.pending| && call in d.inFlight && call in d.stale
    requires d.pending[index].sequence == d.sequences[call]
    ensures d.pending[index].id != call && DataOk(ClaimPending(d, call, index))
  {
    hide Messages, Kepts, Claims, Claim;
    var m := d.pending[index];
    var r := |d.delivered| + index;
    assert Kepts(d.ledger)[r] == m;
    ClaimRemoves(d.ledger, r);
    var at := ClaimedEntry(d.ledger, r);
    var e := ClaimPending(d, call, index);
    assert e.ledger == d.ledger[at := Entry(m, Claimed)];
    assert (d.delivered + d.pending)[..r] + (d.delivered + d.pending)[r + 1..] == d.delivered + e.pending;
    assert LedgerOk(e);
    forall k | 0 <= k < |e.matches|
      ensures e.matches[k].call < |d.sequences| && e.matches[k].message.sequence == d.sequences[e.matches[k].call]
      ensures Entry(e.matches[k].message, Claimed) in e.ledger
      ensures e.matches[k].message.id == e.matches[k].call <==> e.matches[k].call !in d.stale
    {
      if k < |d.matches| {
        assert e.matches[k] == d.matches[k];
        var i :| 0 <= i < |d.ledger| && d.ledger[i] == Entry(d.matches[k].message, Claimed);
        assert e.ledger[i] == d.ledger[i];
      } else {
        assert e.ledger[at] == Entry(m, Claimed);
      }
    }
  }

  lemma ArriveKeeps(d: Data, id: nat, length: u16)
    requires DataOk(d)
    ensures DataOk(GoArrive(d, id, length))
  {
    hide Messages, Kepts, Claims;
    var e := GoArrive(d, id, length);
    if id in d.inFlight && !InInbox(d, id) {
      var m := Msg(id, d.sequences[id], length);
      assert (Messages(d.ledger) + d.inbox) + [m] == Messages(d.ledger) + (d.inbox + [m]);
    }
  }

  // ---------------------------------------------------------------- thread steps

  /** A thread goes on without touching a lock. */
  lemma PutKeeps(s: State, t: nat, pc: Pc, d: Data)
    requires Good(s) && t < |s.pcs| && DataOk(d) && Proper(pc)
    requires HoldsRx(pc) == HoldsRx(s.pcs[t]) && HoldsTx(pc) == HoldsTx(s.pcs[t])
    requires s.rx == t ==> d.eventCount == |d.pending| + Skew(pc) && CallOk(d, pc)
    requires s.rx != t ==> d.eventCount == s.d.eventCount && d.pending == s.d.pending && CallOk(d, Owner(s))
    ensures Good(Put(s, t, pc, d))
  {
    hide DataOk, CallOk, Proper, HoldsRx, HoldsTx, Skew;
  }

  lemma LockRxKeeps(s: State, t: nat, pc: Pc)
    requires Good(s) && t < |s.pcs| && Proper(pc) && HoldsRx(pc) && !HoldsTx(pc) && !HoldsTx(s.pcs[t])
    requires Skew(pc) == 0 && CallOk(s.d, pc)
    ensures Good(LockRx(s, t, pc))
  {
    hide DataOk, CallOk, Proper, HoldsRx, HoldsTx;
  }

  lemma LockTxKeeps(s: State, t: nat, pc: Pc)
    requires Good(s) && t < |s.pcs| && Proper(pc) && HoldsTx(pc) && HoldsRx(pc) == HoldsRx(s.pcs[t])
    requires Skew(pc) == Skew(s.pcs[t]) == 0 && CallOk(s.d, pc)
    ensures Good(LockTx(s, t, pc))
  {
    hide DataOk, CallOk, Proper, HoldsRx, HoldsTx;
  }

  lemma ReceiveKeeps(s: State, t: nat)
    requires Good(s) && t < |s.pcs|
    ensures Good(GoReceive(s, t))
  {
    hide DataOk, Pop;
    var d := s.d;
    var pc := s.pcs[t];
    if pc.ReceiveEnter? {
      LockRxKeeps(s, t, ReceiveTake(pc.capacity));
    } else if pc.ReceiveTake? {
      if d.pending != [] {
        TakeKeeps(d);
        if d.pending[0].length > pc.capacity {
          PutKeeps(s, t, UnlockRx(Idle), d);
        } else {
          PutKeeps(s, t, Consume(UnlockRx(Idle)), TakeOldest(d));
        }
      } else if d.inbox == [] {
        PutKeeps(s, t, UnlockRx(ReceiveWait(pc.capacity)), d);
      } else if d.inbox[0].length > pc.capacity {
        RetainKeeps(d);
        PopMovesOnly(d, Kept);
        PutKeeps(s, t, Signal(UnlockRx(Idle)), RetainHead(d));
      } else {
        DeliverKeeps(d);
        PopMovesOnly(d, Kept);
        PutKeeps(s, t, UnlockRx(Idle), DeliverHead(d));
      }
    } else if pc.ReceiveWait? {
      OthersGoOn(s, t);
      PutKeeps(s, t, ReceiveEnter(pc.capacity), d);
    }
  }

  lemma PopMovesOnly(d: Data, fate: Fate)
    requires d.inbox != []
    ensures Pop(d, fate).pending == d.pending && Pop(d, fate).eventCount == d.eventCount
    ensures Pop(d, fate).sequences == d.sequences && Pop(d, fate).stale == d.stale
    ensures Pop(d, fate).inFlight == d.inFlight - {d.inbox[0].id}
  {
  }

  /** A thread outside rx_lock leaves the owner of rx_lock as it was. */
  lemma OthersGoOn(s: State, t: nat)
    requires Good(s) && t < |s.pcs| && !HoldsRx(s.pcs[t])
    ensures s.rx != t && CallOk(s.d, Owner(s))
  {
  }

  lemma ReapKeeps(s: State, t: nat)
    requires Good(s) && t < |s.pcs|
    ensures Good(GoReap(s, t))
  {
    hide DataOk, Pop;
    var d := s.d;
    var pc := s.pcs[t];
    if pc.ReapEnter? {
      LockRxKeeps(s, t, ReapTake(pc.count, 0, false));
    } else if pc.ReapTake? && !pc.kernel {
      if pc.done < pc.count && d.pending != [] {
        TakeKeeps(d);
        PutKeeps(s, t, Consume(ReapTake(pc.count, pc.done + 1, false)), TakeOldest(d));
      } else if pc.done > 0 {
        PutKeeps(s, t, UnlockRx(Idle), d);
      } else {
        PutKeeps(s, t, ReapTake(pc.count, 0, true), d);
      }
    } else if pc.ReapTake? {
      if pc.done < pc.count && d.inbox != [] {
        DeliverKeeps(d);
        PopMovesOnly(d, Kept);
        PutKeeps(s, t, ReapTake(pc.count, pc.done + 1, true), DeliverHead(d));
      } else if pc.done > 0 {
        PutKeeps(s, t, UnlockRx(Idle), d);
      } else {
        PutKeeps(s, t, UnlockRx(ReapWait(pc.count)), d);
      }
    } else if pc.ReapWait? {
      OthersGoOn(s, t);
      PutKeeps(s, t, ReapEnter(pc.count), d);
    }
  }

  lemma BatchKeeps(s: State, t: nat, n: nat)
    requires Good(s) && t < |s.pcs|
    ensures Good(GoBatch(s, t, n))
  {
    hide DataOk, Pop;
    var pc := s.pcs[t];
    if pc.ReapTake? && pc.kernel && pc.done == 0 && 0 < n <= pc.count && n <= |s.d.inbox| {
      DeliverManyKeeps(s.d, n);
      PutKeeps(s, t, UnlockRx(Idle), DeliverHeads(s.d, n));
    }
  }

  lemma SubmitKeeps(s: State, t: nat)
    requires Good(s) && t < |s.pcs|
    ensures Good(GoSubmit(s, t))
  {
    hide DataOk;
    var pc := s.pcs[t];
    if pc.SubmitEnter? {
      LockTxKeeps(s, t, SubmitSend(pc.count, 0));
    } else if pc.SubmitSend? && pc.done >= pc.count {
      OthersGoOn(s, t);
      PutKeeps(s, t, UnlockTx(Idle), s.d);
    } else if pc.SubmitWait? {
      OthersGoOn(s, t);
      PutKeeps(s, t, SubmitEnter(pc.count), s.d);
    }
  }

  lemma CallKeeps(s: State, t: nat)
    requires Good(s) && t < |s.pcs|
    ensures Good(GoCall(s, t))
  {
    hide DataOk, Pop;
    var d := s.d;
    var pc := s.pcs[t];
    if pc.CallEnter? {
      LockRxKeeps(s, t, CallLock);
    } else if pc.CallLock? {
      LockTxKeeps(s, t, CallSend);
    } else if pc.CallMakeRoom? {
      if d.inbox == [] {
        PutKeeps(s, t, UnlockRx(CallPoll), d);
      } else {
        PopMovesOnly(d, Lost);
        PopMovesOnly(d, Kept);
        if |d.pending| >= RETAIN_LIMIT {
          DropKeeps(d);
          PutKeeps(s, t, UnlockRx(Idle), Pop(d, Lost));
        } else {
          RetainKeeps(d);
          PutKeeps(s, t, Signal(UnlockRx(CallEnter)), RetainHead(d));
        }
      }
    } else if pc.CallPoll? {
      OthersGoOn(s, t);
      PutKeeps(s, t, CallEnter, d);
    } else if pc.CallScan? {
      ScanKeeps(s, t);
    } else if pc.CallReceive? {
      MatchKeeps(s, t);
    } else if pc.CallAwait? || pc.CallClock? {
      PutKeeps(s, t, CallScan(pc.id, pc.sequence), d);
    }
  }

  lemma OwnerFacts(s: State, t: nat)
    requires Good(s) && t < |s.pcs| && HoldsRx(s.pcs[t])
    ensures s.rx == t && CallOk(s.d, s.pcs[t]) && DataOk(s.d)
    ensures s.d.eventCount == |s.d.pending| + Skew(s.pcs[t])
  {
    hide DataOk, CallOk, Skew;
  }

  lemma ScanKeeps(s: State, t: nat)
    requires Good(s) && t < |s.pcs| && s.pcs[t].CallScan?
    ensures Good(GoCall(s, t))
  {
    hide DataOk, Good;
    var d, pc := s.d, s.pcs[t];
    OwnerFacts(s, t);
    var index := IndexOf(d.pending, pc.sequence);
    if index < |d.pending| {
      ClaimPendingKeeps(d, pc.id, index);
      PutKeeps(s, t, Consume(UnlockRx(Idle)), ClaimPending(d, pc.id, index));
    } else {
      PutKeeps(s, t, CallReceive(pc.id, pc.sequence), d);
    }
  }

  lemma MatchKeeps(s: State, t: nat)
    requires Good(s) && t < |s.pcs| && s.pcs[t].CallReceive?
    ensures Good(GoCall(s, t))
  {
    var d, pc := s.d, s.pcs[t];
    if d.inbox == [] {
      hide DataOk;
      PutKeeps(s, t, CallAwait(pc.id, pc.sequence), d);
      return;
    }
    PopMovesOnly(d, Lost);
    PopMovesOnly(d, Kept);
    PopMovesOnly(d, Claimed);
    assert d.inbox[0].id == pc.id ==> d.inbox[0].sequence == pc.sequence;
    if d.inbox[0].sequence == pc.sequence {
      ClaimHeadKeeps(d, pc.id);
      hide DataOk, Pop;
      PutKeeps(s, t, UnlockRx(Idle), ClaimHead(d, pc.id));
    } else if |d.pending| >= RETAIN_LIMIT {
      DropKeeps(d);
      hide DataOk, Pop;
      PutKeeps(s, t, UnlockRx(Idle), Pop(d, Lost));
    } else {
      RetainKeeps(d);
      hide DataOk, Pop;
      PutKeeps(s, t, Signal(CallClock(pc.id, pc.sequence)), RetainHead(d));
    }
  }

  lemma CountOnlyKeeps(d: Data, eventCount: int)
    requires DataOk(d)
    ensures DataOk(d.(eventCount := eventCount))
  {
  }

  lemma SharedKeeps(s: State, t: nat)
    requires Good(s) && t < |s.pcs|
    ensures Good(GoShared(s, t))
  {
    hide DataOk;
    var d := s.d;
    var pc := s.pcs[t];
    if pc.Signal? {
      CountOnlyKeeps(d, d.eventCount + 1);
      PutKeeps(s, t, pc.next, d.(eventCount := d.eventCount + 1));
    } else if pc.Consume? {
      CountOnlyKeeps(d, d.eventCount - 1);
      PutKeeps(s, t, pc.next, d.(eventCount := d.eventCount - 1));
    } else if pc.UnlockRx? {
      UnlockRxKeeps(s, t);
    } else if pc.UnlockTx? {
      UnlockTxKeeps(s, t);
    }
  }

  lemma UnlockRxKeeps(s: State, t: nat)
    requires Good(s) && t < |s.pcs| && s.pcs[t].UnlockRx?
    ensures Good(GoShared(s, t))
  {
    hide DataOk;
  }

  lemma UnlockTxKeeps(s: State, t: nat)
    requires Good(s) && t < |s.pcs| && s.pcs[t].UnlockTx?
    ensures Good(GoShared(s, t))
  {
    hide DataOk, Carries;
  }

  lemma AcceptKeeps(s: State, t: nat, sequence: u32)
    requires Good(s) && t < |s.pcs|
    ensures Good(GoAccept(s, t, sequence))
  {
    hide DataOk;
    var d, pc := s.d, s.pcs[t];
    if Fresh(d, sequence) {
      AdmitKeeps(d, sequence);
      var e := Admit(d, sequence);
      if pc.SubmitSend? && pc.done < pc.count {
        OthersGoOn(s, t);
        assert CallOk(e, Owner(s));
        PutKeeps(s, t, SubmitSend(pc.count, pc.done + 1), e);
      } else if pc.CallSend? {
        var id := |d.sequences|;
        var marked := if Carries(d.pending, sequence) then d.stale + {id} else d.stale;
        OwnerFacts(s, t);
        MarkKeeps(d, sequence, marked);
        PutKeeps(s, t, UnlockTx(CallScan(id, sequence)), e.(stale := marked));
      }
    }
  }

  /** A call starts with its request in flight and on record. */
  lemma MarkKeeps(d: Data, sequence: u32, marked: set<nat>)
    requires DataOk(d) && Fresh(d, sequence)
    requires marked == if Carries(d.pending, sequence) then d.stale + {|d.sequences|} else d.stale
    ensures DataOk(Admit(d, sequence).(stale := marked))
    ensures CallOk(Admit(d, sequence).(stale := marked), UnlockTx(CallScan(|d.sequences|, sequence)))
  {
    AdmitKeeps(d, sequence);
    hide Carries, Messages, Kepts, Claims;
  }

  lemma RefuseKeeps(s: State, t: nat)
    requires Good(s) && t < |s.pcs|
    ensures Good(GoRefuse(s, t))
  {
    hide DataOk, CallOk, Carries;
    var d, pc := s.d, s.pcs[t];
    if pc.SubmitSend? {
      PutKeeps(s, t, UnlockTx(if pc.done > 0 then Idle else SubmitWait(pc.count)), d);
    } else if pc.CallSend? {
      NotWaiting(d, UnlockTx(CallMakeRoom));
      PutKeeps(s, t, UnlockTx(CallMakeRoom), d);
    }
  }

  lemma FailKeeps(s: State, t: nat)
    requires Good(s) && t < |s.pcs|
    ensures Good(GoFail(s, t))
  {
    hide DataOk, CallOk, Carries;
    var d, pc := s.d, s.pcs[t];
    if pc.SubmitSend? {
      PutKeeps(s, t, UnlockTx(Idle), d);
    } else if pc.CallSend? {
      NotWaiting(d, UnlockTx(UnlockRx(Idle)));
      PutKeeps(s, t, UnlockTx(UnlockRx(Idle)), d);
    } else if pc.ReceiveTake? || pc.ReapTake? || pc.CallMakeRoom? || pc.CallReceive? {
      NotWaiting(d, UnlockRx(Idle));
      PutKeeps(s, t, UnlockRx(Idle), d);
    }
  }

  lemma ExpireKeeps(s: State, t: nat)
    requires Good(s) && t < |s.pcs|
    ensures Good(GoExpire(s, t))
  {
    hide DataOk, CallOk, Carries;
    var d, pc := s.d, s.pcs[t];
    if pc.CallAwait? || pc.CallClock? {
      NotWaiting(d, UnlockRx(Idle));
      PutKeeps(s, t, UnlockRx(Idle), d);
    } else if pc.ReceiveWait? || pc.ReapWait? || pc.SubmitWait? || pc.CallPoll? {
      PutKeeps(s, t, Idle, d);
    }
  }

  lemma NotWaiting(d: Data, pc: Pc)
    requires Awaited(pc).Idle? && !pc.ReapTake?
    ensures CallOk(d, pc)
  {
  }

  lemma GoKeeps(s: State, t: nat)
    requires Good(s) && t < |s.pcs|
    ensures Good(GoAny(s, t))
  {
    hide Good, GoReceive, GoReap, GoSubmit, GoShared, GoCall;
    ReceiveKeeps(s, t);
    ReapKeeps(s, t);
    SubmitKeeps(s, t);
    SharedKeeps(s, t);
    CallKeeps(s, t);
  }

  lemma BeginKeeps(s: State, t: nat, op: Pc)
    requires Good(s) && t < |s.pcs| && s.pcs[t].Idle? && Entry0(op)
    ensures Good(Put(s, t, op, s.d))
  {
    hide DataOk;
    OthersGoOn(s, t);
    PutKeeps(s, t, op, s.d);
  }

  lemma ResponseKeeps(s: State, id: nat, length: u16)
    requires Good(s)
    ensures Good(s.(d := GoArrive(s.d, id, length)))
  {
    ArriveKeeps(s.d, id, length);
    hide DataOk;
  }

  /** Every step of every thread and of the kernel keeps the invariant. */
  lemma StepKeeps(s: State, l: Label)
    requires Good(s)
    ensures Good(Step(s, l))
  {
    hide Good, GoAny, GoAccept, GoRefuse, GoFail, GoBatch, GoExpire, GoArrive, Put;
    if l.Arrive? {
      ResponseKeeps(s, l.id, l.length);
    } else if l.thread < |s.pcs| {
      match l {
        case Begin(t, op) =>
          if s.pcs[t].Idle? && Entry0(op) {
            BeginKeeps(s, t, op);
          }
        case Go(t) => GoKeeps(s, t);
        case Accept(t, sequence) => AcceptKeeps(s, t, sequence);
        case Batch(t, n) => BatchKeeps(s, t, n);
        case Refuse(t) => RefuseKeeps(s, t);
        case Fail(t) => FailKeeps(s, t);
        case Expire(t) => ExpireKeeps(s, t);
      }
    }
  }

  lemma {:induction false} RunKeeps(s: State, ls: seq<Label>)
    requires Good(s)
    ensures Good(Run(s, ls))
    decreases |ls|
  {
    hide Good, Step;
    if ls != [] {
      StepKeeps(s, ls[0]);
      RunKeeps(Step(s, ls[0]), ls[1..]);
    }
  }

  // ---------------------------------------------------------------- theorems

  lemma StartIsGood(threads: nat)
    ensures Good(Start(threads))
  {
    var d := Start(threads).d;
    assert d.arrived == Messages(d.ledger) + d.inbox;
    assert Kepts(d.ledger) == d.delivered + d.pending;
    assert DataOk(d);
    hide DataOk;
  }

  /** Every run of any number of threads, against any kernel of this kind. */
  lemma EveryRunIsGood(threads: nat, ls: seq<Label>)
    ensures Good(Run(Start(threads), ls))
  {
    hide Good, Run, Start;
    StartIsGood(threads);
    RunKeeps(Start(threads), ls);
  }

  /** The states that runs lead to. */
  ghost predicate Reachable(s: State) {
    exists threads, ls :: s == Run(Start(threads), ls)
  }

  lemma ReachableIsGood(s: State)
    requires Reachable(s)
    ensures Good(s)
  {
    hide Good, Run, Start;
    var threads, ls :| s == Run(Start(threads), ls);
    EveryRunIsGood(threads, ls);
  }

  /** What arrived is in the ledger or in the kernel, in order. Receivers have
      been handed, and the retained responses continue, exactly the messages of
      the ledger that no call claimed and that were not dropped; without a drop,
      every message that the library took is delivered, retained or claimed. */
  lemma NothingIsLostOrReordered(threads: nat, ls: seq<Label>)
    ensures var d := Run(Start(threads), ls).d;
            && d.arrived == Messages(d.ledger) + d.inbox
            && Kepts(d.ledger) == d.delivered + d.pending
            && (Losses(d.ledger) == 0 ==> |d.arrived| == |d.delivered| + |d.pending| + |d.matches| + |d.inbox|)
  {
    hide Run, Start;
    var d := Run(Start(threads), ls).d;
    EveryRunIsGood(threads, ls);
    EveryMessageHasOneFate(d.ledger);
  }

  /** No response goes two ways. */
  lemma EveryResponseGoesOneWay(threads: nat, ls: seq<Label>, j: nat, k: nat)
    requires j < k < |Run(Start(threads), ls).d.ledger|
    ensures var l := Run(Start(threads), ls).d.ledger; l[j].message.id != l[k].message.id
  {
    hide Run, Start;
    EveryRunIsGood(threads, ls);
  }

  /** remove_pending, take_pending_oldest and take_pending_sequence never find
      the semaphore empty. */
  lemma NoCallReturnsEproto(threads: nat, ls: seq<Label>, t: nat)
    requires t < threads
    ensures var pcs := Run(Start(threads), ls).pcs;
            |pcs| == threads && pcs[t] != Failed && pcs[t] != UnlockRx(Failed)
  {
    EveryRunIsGood(threads, ls);
    RunKeepsThreads(Start(threads), ls);
  }

  lemma {:induction false} RunKeepsThreads(s: State, ls: seq<Label>)
    ensures |Run(s, ls).pcs| == |s.pcs|
    decreases |ls|
  {
    if ls != [] {
      RunKeepsThreads(Step(s, ls[0]), ls[1..]);
    }
  }

  /** Outside a section under rx_lock the semaphore counts the retained
      responses, and a thread that waits for one returns to fetch it. */
  lemma SemaphoreIsInStep(threads: nat, ls: seq<Label>, t: nat)
    requires Run(Start(threads), ls).rx == FREE
    ensures var s := Run(Start(threads), ls);
            && s.d.eventCount == |s.d.pending| <= RETAIN_LIMIT
            && (t < |s.pcs| && s.pcs[t].ReceiveWait? && s.d.pending != [] ==> Step(s, Go(t)).pcs[t].ReceiveEnter?)
            && (t < |s.pcs| && s.pcs[t].ReapWait? && s.d.pending != [] ==> Step(s, Go(t)).pcs[t].ReapEnter?)
  {
    hide Run, Start;
    EveryRunIsGood(threads, ls);
  }

  /** While a call waits for its response, that response is with the kernel:
      nobody has received, retained or claimed it. */
  lemma AwaitedIsUntouched(threads: nat, ls: seq<Label>, t: nat)
    requires t < |Run(Start(threads), ls).pcs| && !Awaited(Run(Start(threads), ls).pcs[t]).Idle?
    ensures var s := Run(Start(threads), ls);
            var a := Awaited(s.pcs[t]);
            && s.rx == t && (a.CallScan? || a.CallReceive? || a.CallAwait? || a.CallClock?)
            && forall k :: 0 <= k < |s.d.ledger| ==> s.d.ledger[k].message.id != a.id
  {
    hide Run, Start;
    EveryRunIsGood(threads, ls);
    OwnerFacts(Run(Start(threads), ls), t);
  }

  /** While one thread is in a section under rx_lock, and so from before a call
      sends until it has its response, no step of any other thread takes a
      response from the kernel, retains, delivers or claims one. */
  lemma OnlyTheOwnerReceives(s: State, l: Label, t: nat)
    requires Reachable(s) && t < |s.pcs| && s.rx == t
    requires l.Arrive? || l.thread != t
    ensures var s' := Step(s, l);
            && s'.pcs[t] == s.pcs[t] && s'.rx == t
            && s'.d.ledger == s.d.ledger && s'.d.delivered == s.d.delivered
            && s'.d.pending == s.d.pending && s'.d.matches == s.d.matches && s'.d.eventCount == s.d.eventCount
  {
    ReachableIsGood(s);
    hide Reachable;
    if !l.Arrive? && l.thread < |s.pcs| {
      assert !HoldsRx(s.pcs[l.thread]);
    }
  }

  /** Whether a call finds a retained response with its sequence is settled
      when the driver takes the request. */
  lemma StaleIsSettled(s: State, l: Label)
    requires Good(s)
    ensures |s.d.sequences| <= |Step(s, l).d.sequences|
    ensures forall id :: 0 <= id < |s.d.sequences| ==> (id in Step(s, l).d.stale <==> id in s.d.stale)
  {
    hide Good, Carries, Fresh, InInbox, Claim, Kepts;
    if l.Batch? && l.thread < |s.pcs| && l.n <= |s.d.inbox| {
      DeliveryIsNoSend(s.d, l.n);
    }
  }

  lemma {:induction false} DeliveryIsNoSend(d: Data, n: nat)
    requires n <= |d.inbox|
    ensures DeliverHeads(d, n).stale == d.stale && DeliverHeads(d, n).sequences == d.sequences
    decreases n
  {
    if n > 0 {
      DeliveryIsNoSend(DeliverHead(d), n - 1);
    }
  }

  lemma {:induction false} StaleStays(s: State, ls: seq<Label>, id: nat)
    requires Good(s) && id < |s.d.sequences|
    ensures id in Run(s, ls).d.stale <==> id in s.d.stale
    decreases |ls|
  {
    hide Good, Step;
    if ls != [] {
      StaleIsSettled(s, ls[0]);
      StepKeeps(s, ls[0]);
      StaleStays(Step(s, ls[0]), ls[1..], id);
    }
  }

  /** In every run, a call that the driver gives `sequence` comes to hold its own
      response if and only if no response with that sequence was retained at
      that moment. */
  lemma CallGetsItsOwn(threads: nat, ls: seq<Label>, t: nat, sequence: u32, rest: seq<Label>, k: nat)
    requires var s := Run(Start(threads), ls);
             t < |s.pcs| && s.pcs[t].CallSend? && Fresh(s.d, sequence)
    requires var s := Run(Start(threads), ls);
             var e := Run(Step(s, Accept(t, sequence)), rest);
             k < |e.d.matches| && e.d.matches[k].call == |s.d.sequences|
    ensures var s := Run(Start(threads), ls);
            var m := Run(Step(s, Accept(t, sequence)), rest).d.matches[k];
            m.message.sequence == sequence && (m.message.id == m.call <==> !Carries(s.d.pending, sequence))
  {
    hide Run, Start, Step;
    var s := Run(Start(threads), ls);
    var a := Step(s, Accept(t, sequence));
    EveryRunIsGood(threads, ls);
    CallIsRecorded(s, t, sequence);
    StepKeeps(s, Accept(t, sequence));
    RunKeeps(a, rest);
    StaleStays(a, rest, |s.d.sequences|);
    SequencesStay(a, rest, |s.d.sequences|);
    assert MatchesOk(Run(a, rest).d);
  }

  lemma CallIsRecorded(s: State, t: nat, sequence: u32)
    requires Good(s) && t < |s.pcs| && s.pcs[t].CallSend? && Fresh(s.d, sequence)
    ensures var a := Step(s, Accept(t, sequence)).d;
            && a.sequences == s.d.sequences + [sequence]
            && (|s.d.sequences| in a.stale <==> Carries(s.d.pending, sequence))
  {
    assert StaleOk(s.d);
    hide Carries, Good;
  }

  lemma SequencesGrow(s: State, l: Label)
    ensures s.d.sequences <= Step(s, l).d.sequences
  {
    if l.Batch? && l.thread < |s.pcs| && l.n <= |s.d.inbox| {
      DeliveryIsNoSend(s.d, l.n);
    }
  }

  lemma {:induction false} SequencesStay(s: State, ls: seq<Label>, id: nat)
    requires id < |s.d.sequences|
    ensures id < |Run(s, ls).d.sequences| && Run(s, ls).d.sequences[id] == s.d.sequences[id]
    decreases |ls|
  {
    hide Step;
    if ls != [] {
      SequencesGrow(s, ls[0]);
      SequencesStay(Step(s, ls[0]), ls[1..], id);
    }
  }

  // ---------------------------------------------------------------- locks

  predicate WantsRx(pc: Pc) {
    pc.ReceiveEnter? || pc.ReapEnter? || pc.CallEnter?
  }

  predicate WantsTx(pc: Pc) {
    pc.SubmitEnter? || pc.CallLock?
  }

  predicate Polls(pc: Pc) {
    pc.ReceiveWait? || pc.ReapWait? || pc.SubmitWait? || pc.CallPoll? || pc.CallAwait?
  }

  /** Locks nest one way only, and nobody polls under tx_lock. */
  lemma LocksNestOneWay(threads: nat, ls: seq<Label>, t: nat)
    requires t < |Run(Start(threads), ls).pcs|
    ensures var s := Run(Start(threads), ls);
            && (WantsRx(s.pcs[t]) ==> s.rx != t && s.tx != t)
            && (WantsTx(s.pcs[t]) ==> s.tx != t)
            && (Polls(s.pcs[t]) ==> s.tx != t && (s.rx == t <==> s.pcs[t].CallAwait?))
  {
    hide Run, Start;
    EveryRunIsGood(threads, ls);
  }

  /** The thread that t finally waits for: itself, or the owner of a lock. */
  function Holdup(s: State, t: nat): (u: int)
    requires t < |s.pcs|
    ensures 0 <= u < |s.pcs|
  {
    var rxTaken, txTaken := 0 <= s.rx < |s.pcs|, 0 <= s.tx < |s.pcs|;
    if WantsRx(s.pcs[t]) && rxTaken then
      if WantsTx(s.pcs[s.rx]) && txTaken then s.tx else s.rx
    else if WantsTx(s.pcs[t]) && txTaken then s.tx
    else t
  }

  /** A step that this thread can always make: an ioctl may be refused. */
  function OwnStep(s: State, u: nat): Label
    requires u < |s.pcs|
  {
    var pc := s.pcs[u];
    if pc.CallSend? || (pc.SubmitSend? && pc.done < pc.count) then Refuse(u) else Go(u)
  }

  /** No deadlock: every thread in the library can go on, or is held up by one
      that can, unless that one polls. A thread that polls while others wait for
      it is a call whose response has not arrived. */
  lemma NoDeadlock(s: State, t: nat)
    requires Reachable(s) && t < |s.pcs| && !s.pcs[t].Idle?
    ensures var u := Holdup(s, t);
            || Step(s, OwnStep(s, u)).pcs[u] != s.pcs[u]
            || (Polls(s.pcs[u]) && s.tx != u && (u != t ==> s.pcs[u].CallAwait? && s.d.inbox == []))
  {
    ReachableIsGood(s);
    hide DataOk, CallOk, Reachable;
    var u := Holdup(s, t);
    assert Proper(s.pcs[u]) && !s.pcs[u].Idle?;
    if !Polls(s.pcs[u]) || (s.pcs[u].CallAwait? && s.d.inbox != []) {
      StepMoves(s, u);
    }
  }

  lemma StepMoves(s: State, u: nat)
    requires Good(s) && u < |s.pcs| && !s.pcs[u].Idle?
    requires WantsRx(s.pcs[u]) ==> s.rx == FREE
    requires WantsTx(s.pcs[u]) ==> s.tx == FREE
    requires !Polls(s.pcs[u]) || (s.pcs[u].CallAwait? && s.d.inbox != [])
    ensures Step(s, OwnStep(s, u)).pcs[u] != s.pcs[u]
  {
    hide DataOk, CallOk, IndexOf, Carries, Messages, Kepts, Claims, Claim;
  }

  /** The steps that remain under tx_lock. */
  function TxWork(pc: Pc): nat {
    if pc.SubmitSend? then (if pc.done < pc.count then pc.count - pc.done else 0) + 2
    else if pc.CallSend? then 2
    else if pc.UnlockTx? then 1
    else 0
  }

  /** A step changes nobody else's place in the code. */
  lemma OnlyOwnPc(s: State, l: Label, t: nat)
    requires t < |s.pcs| && (l.Arrive? || l.thread != t)
    ensures Step(s, l).pcs[t] == s.pcs[t]
  {
    hide IndexOf, Carries, Fresh, HandOver, Pop, DeliverHeads, GoArrive;
  }

  /** What the owner of tx_lock can do. */
  lemma TxOwnerMoves(s: State, l: Label, t: nat)
    requires t < |s.pcs| && HoldsTx(s.pcs[t]) && Proper(s.pcs[t]) && !l.Arrive? && l.thread == t
    ensures Step(s, l).pcs[t] == s.pcs[t] || TxWork(Step(s, l).pcs[t]) < TxWork(s.pcs[t])
  {
    hide IndexOf, Carries, Fresh, HandOver, Pop, DeliverHeads, GoReceive, GoReap, Admit;
  }

  /** tx_lock is given back after a bounded number of the owner's own steps. */
  lemma TxIsReleased(s: State, l: Label, t: nat)
    requires Reachable(s) && t < |s.pcs| && s.tx == t
    ensures Step(s, l).pcs[t] == s.pcs[t] || TxWork(Step(s, l).pcs[t]) < TxWork(s.pcs[t])
  {
    ReachableIsGood(s);
    hide Reachable, Step, DataOk, CallOk, TxWork, HoldsTx, Proper, HoldsRx;
    if l.Arrive? || l.thread != t {
      OnlyOwnPc(s, l, t);
    } else {
      TxOwnerMoves(s, l, t);
    }
  }

  /** The sequence wraps while an old response is retained: request 0 is sent
      under sequence 5, its response does not fit the receiver's buffer and is
      retained, and the driver then gives 5 to the request of a call. */
  const WRAP: seq<Label> := [
    Begin(0, SubmitEnter(1)), Go(0), Accept(0, 5), Go(0), Go(0), Arrive(0, 10),
    Begin(0, ReceiveEnter(4)), Go(0), Go(0), Go(0), Go(0),
    Begin(1, CallEnter), Go(1), Go(1), Accept(1, 5), Go(1), Go(1)]

  lemma Peel(s: State, i: nat)
    requires i < |WRAP|
    ensures Run(s, WRAP[i..]) == Run(Step(s, WRAP[i]), WRAP[i + 1..])
  {
    hide Step;
    assert WRAP[i..][1..] == WRAP[i + 1..];
  }

  /** Request 0 is in flight under sequence 5. */
  function Sent(): State {
    State([Idle, Idle], FREE, FREE, Data([], 0, [5], {0}, [], [], [], [], [], {}))
  }

  /** Its response is retained. */
  function Kept0(): State {
    var m := Msg(0, 5, 10);
    State([Idle, Idle], FREE, FREE, Data([m], 1, [5], {}, [], [m], [Entry(m, Kept)], [], [], {}))
  }

  lemma RequestIsSent()
    ensures Run(Start(2), WRAP) == Run(Sent(), WRAP[5..])
  {
    hide Run;
    assert WRAP == WRAP[0..];
    var s0 := Start(2);
    var s1 := Step(s0, WRAP[0]);
    var s2 := Step(s1, WRAP[1]);
    assert s2.pcs[0] == SubmitSend(1, 0);
    var s3 := Step(s2, WRAP[2]);
    assert s3.pcs[0] == SubmitSend(1, 1) && s3.d.inFlight == {0};
    var s5 := Step(Step(s3, WRAP[3]), WRAP[4]);
    assert s5.pcs == [Idle, Idle];
    assert s5 == Sent();
    Peel(s0, 0);
    Peel(s1, 1);
    Peel(s2, 2);
    Peel(s3, 3);
    Peel(Step(s3, WRAP[3]), 4);
  }

  lemma ResponseIsRetained()
    ensures Run(Sent(), WRAP[5..]) == Run(Kept0(), WRAP[11..])
  {
    hide Run;
    var s5 := Sent();
    var s6 := Step(s5, WRAP[5]);
    assert s6.d.inbox == [Msg(0, 5, 10)];
    var s7 := Step(s6, WRAP[6]);
    var s8 := Step(s7, WRAP[7]);
    assert s8.pcs[0] == ReceiveTake(4);
    var s9 := Step(s8, WRAP[8]);
    assert s9.pcs[0] == Signal(UnlockRx(Idle));
    var s10 := Step(s9, WRAP[9]);
    var s11 := Step(s10, WRAP[10]);
    assert s11.pcs == [Idle, Idle] && s11.d.inFlight == {};
    assert s11 == Kept0();
    Peel(s5, 5);
    Peel(s6, 6);
    Peel(s7, 7);
    Peel(s8, 8);
    Peel(s9, 9);
    Peel(s10, 10);
  }

  /** The call's request 1 is in flight under the same sequence. */
  function Called(): State {
    var m := Msg(0, 5, 10);
    State([Idle, UnlockTx(CallScan(1, 5))], 1, 1,
          Data([m], 1, [5, 5], {1}, [], [m], [Entry(m, Kept)], [], [], {1}))
  }

  lemma CallIsSent()
    ensures Run(Kept0(), WRAP[11..]) == Run(Called(), WRAP[15..])
  {
    hide Run;
    var s11 := Kept0();
    var s12 := Step(s11, WRAP[11]);
    var s13 := Step(s12, WRAP[12]);
    var s14 := Step(s13, WRAP[13]);
    assert s14.pcs == [Idle, CallSend] && s14.d.pending[0].sequence == 5;
    var s15 := Step(s14, WRAP[14]);
    assert s15.d.stale == {1} && s15.d.inFlight == {1};
    assert s15 == Called();
    Peel(s11, 11);
    Peel(s12, 12);
    Peel(s13, 13);
    Peel(s14, 14);
  }

  lemma RunOfNothing(s: State)
    ensures Run(s, []) == s
  {
  }

  /** The call is handed the response to request 0. */
  lemma CallMayTakeAStaleResponse()
    ensures Run(Start(2), WRAP).d.matches == [Match(1, Msg(0, 5, 10))]
  {
    hide Run, HandOver;
    RequestIsSent();
    ResponseIsRetained();
    CallIsSent();
    var s15 := Called();
    var s16 := Step(s15, WRAP[15]);
    assert s16.pcs[1] == CallScan(1, 5);
    var s17 := Step(s16, WRAP[16]);
    assert s16.d.pending[0].sequence == 5;
    assert s17.d.matches == [Match(1, Msg(0, 5, 10))];
    Peel(s15, 15);
    Peel(s16, 16);
    assert WRAP[17..] == [];
    RunOfNothing(s17);
  }
}
