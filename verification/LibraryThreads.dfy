/** The library's locks, with any number of threads in it at once.

    Every lock operation, ioctl, eventfd access and poll is a step of its own;
    what a thread does to the retained responses between two of them happens
    under rx_lock and is part of the next step. The kernel hands out nonzero
    sequences that differ from those of all requests still in flight, and hands
    up each request's response at most once. */
module LibraryThreads {
  import opened Wrap
  import opened Ledgers

  const RETAIN_LIMIT: nat := 64
  const FREE: int := -1

  /** A response; id is the number of the request that it answers. */
  datatype Msg = Msg(id: nat, sequence: u32, length: u16)

  /** Which call took which message. */
  datatype Match = Match(call: nat, message: Msg)

  /** What a thread does next. Failed is a return of EPROTO. */
  datatype Pc =
    | Idle | Failed
    | ReceiveEnter(capacity: u16) | ReceiveTake(capacity: u16) | ReceiveWait(capacity: u16)
    | ReapEnter(count: nat) | ReapTake(count: nat, done: nat, kernel: bool) | ReapWait(count: nat)
    | SubmitEnter(count: nat) | SubmitSend(count: nat, done: nat) | SubmitWait(count: nat)
    | CallEnter | CallLock | CallSend | CallMakeRoom | CallPoll
    | CallScan(id: nat, sequence: u32) | CallReceive(id: nat, sequence: u32)
    | CallAwait(id: nat, sequence: u32) | CallClock(id: nat, sequence: u32)
    | Signal(next: Pc) | Consume(next: Pc) | UnlockRx(next: Pc) | UnlockTx(next: Pc)

  /** The retained responses with their semaphore, the kernel, and a record of
      what became of every request and response. */
  datatype Data = Data(
    pending: seq<Msg>,
    eventCount: int,
    sequences: seq<u32>,
    inFlight: set<nat>,
    inbox: seq<Msg>,
    arrived: seq<Msg>,
    ledger: Ledger<Msg>,
    delivered: seq<Msg>,
    matches: seq<Match>,
    stale: set<nat>)

  datatype State = State(pcs: seq<Pc>, rx: int, tx: int, d: Data)

  datatype Label =
    | Begin(thread: nat, op: Pc)
    | Go(thread: nat)
    | Accept(thread: nat, sequence: u32)
    | Refuse(thread: nat)
    | Fail(thread: nat)
    | Batch(thread: nat, n: nat)
    | Expire(thread: nat)
    | Arrive(id: nat, length: u16)

  // ---------------------------------------------------------------- data

  predicate Carries(ms: seq<Msg>, sequence: u32) {
    exists i :: 0 <= i < |ms| && ms[i].sequence == sequence
  }

  /** The first message with this sequence, or the end. */
  function IndexOf(ms: seq<Msg>, sequence: u32): (i: nat)
    ensures i <= |ms|
    ensures i < |ms| ==> ms[i].sequence == sequence
    ensures i < |ms| <==> Carries(ms, sequence)
    ensures forall j :: 0 <= j < i ==> ms[j].sequence != sequence
  {
    if ms == [] then 0
    else if ms[0].sequence == sequence then 0
    else
      var rest := IndexOf(ms[1..], sequence);
      assert rest < |ms| - 1 ==> ms[rest + 1].sequence == sequence;
      assert forall j :: 1 <= j < |ms| ==> ms[1..][j - 1] == ms[j];
      rest + 1
  }

  function Admit(d: Data, sequence: u32): Data {
    d.(sequences := d.sequences + [sequence], inFlight := d.inFlight + {|d.sequences|})
  }

  /** Takes the kernel's oldest response. */
  function Pop(d: Data, fate: Fate): Data
    requires d.inbox != []
  {
    d.(inbox := d.inbox[1..], inFlight := d.inFlight - {d.inbox[0].id},
       ledger := d.ledger + [Entry(d.inbox[0], fate)])
  }

  function DeliverHead(d: Data): Data
    requires d.inbox != []
  {
    Pop(d, Kept).(delivered := d.delivered + [d.inbox[0]])
  }

  function DeliverHeads(d: Data, n: nat): Data
    requires n <= |d.inbox|
    decreases n
  {
    if n == 0 then d else DeliverHeads(DeliverHead(d), n - 1)
  }

  function RetainHead(d: Data): Data
    requires d.inbox != []
  {
    Pop(d, Kept).(pending := d.pending + [d.inbox[0]])
  }

  function ClaimHead(d: Data, call: nat): Data
    requires d.inbox != []
  {
    Pop(d, Claimed).(matches := d.matches + [Match(call, d.inbox[0])])
  }

  function TakeOldest(d: Data): Data
    requires d.pending != []
  {
    d.(pending := d.pending[1..], delivered := d.delivered + [d.pending[0]])
  }

  /** The kept message number r goes to a call instead of a receiver. */
  function HandOver(l: Ledger<Msg>, r: nat): Ledger<Msg> {
    if r < |Kepts(l)| then Claim(l, r) else l
  }

  function ClaimPending(d: Data, call: nat, index: nat): Data
    requires index < |d.pending|
  {
    d.(pending := d.pending[..index] + d.pending[index + 1..],
       ledger := HandOver(d.ledger, |d.delivered| + index),
       matches := d.matches + [Match(call, d.pending[index])])
  }

  /** The driver never has two requests in flight under one sequence. */
  predicate Fresh(d: Data, sequence: u32) {
    sequence != 0 && forall id :: id in d.inFlight && id < |d.sequences| ==> d.sequences[id] != sequence
  }

  predicate InInbox(d: Data, id: nat) {
    exists k :: 0 <= k < |d.inbox| && d.inbox[k].id == id
  }

  // ---------------------------------------------------------------- threads

  function Put(s: State, t: nat, pc: Pc, d: Data): State
    requires t < |s.pcs|
  {
    s.(pcs := s.pcs[t := pc], d := d)
  }

  function LockRx(s: State, t: nat, pc: Pc): State
    requires t < |s.pcs|
  {
    if s.rx == FREE then s.(pcs := s.pcs[t := pc], rx := t) else s
  }

  function LockTx(s: State, t: nat, pc: Pc): State
    requires t < |s.pcs|
  {
    if s.tx == FREE then s.(pcs := s.pcs[t := pc], tx := t) else s
  }

  /** sg2002_rtos_message_receive. */
  function GoReceive(s: State, t: nat): State
    requires t < |s.pcs|
  {
    var d := s.d;
    match s.pcs[t]
    case ReceiveEnter(capacity) => LockRx(s, t, ReceiveTake(capacity))
    case ReceiveTake(capacity) =>
      if d.pending != [] then
        if d.pending[0].length > capacity then Put(s, t, UnlockRx(Idle), d)
        else Put(s, t, Consume(UnlockRx(Idle)), TakeOldest(d))
      else if d.inbox == [] then Put(s, t, UnlockRx(ReceiveWait(capacity)), d)
      else if d.inbox[0].length > capacity then Put(s, t, Signal(UnlockRx(Idle)), RetainHead(d))
      else Put(s, t, UnlockRx(Idle), DeliverHead(d))
    case ReceiveWait(capacity) =>
      if d.inbox != [] || d.eventCount > 0 then Put(s, t, ReceiveEnter(capacity), d) else s
    case _ => s
  }

  /** reap_batch_locked and its loop; Batch is the native ioctl. */
  function GoReap(s: State, t: nat): State
    requires t < |s.pcs|
  {
    var d := s.d;
    match s.pcs[t]
    case ReapEnter(count) => LockRx(s, t, ReapTake(count, 0, false))
    case ReapTake(count, done, kernel) =>
      if !kernel then
        if done < count && d.pending != [] then Put(s, t, Consume(ReapTake(count, done + 1, false)), TakeOldest(d))
        else if done > 0 then Put(s, t, UnlockRx(Idle), d)
        else Put(s, t, ReapTake(count, 0, true), d)
      else if done < count && d.inbox != [] then Put(s, t, ReapTake(count, done + 1, true), DeliverHead(d))
      else if done > 0 then Put(s, t, UnlockRx(Idle), d)
      else Put(s, t, UnlockRx(ReapWait(count)), d)
    case ReapWait(count) =>
      if d.inbox != [] || d.eventCount > 0 then Put(s, t, ReapEnter(count), d) else s
    case _ => s
  }

  function GoBatch(s: State, t: nat, n: nat): State
    requires t < |s.pcs|
  {
    match s.pcs[t]
    case ReapTake(count, done, kernel) =>
      if kernel && done == 0 && 0 < n <= count && n <= |s.d.inbox|
      then Put(s, t, UnlockRx(Idle), DeliverHeads(s.d, n))
      else s
    case _ => s
  }

  /** sg2002_rtos_message_submit_batch; sending is a batch of one. */
  function GoSubmit(s: State, t: nat): State
    requires t < |s.pcs|
  {
    match s.pcs[t]
    case SubmitEnter(count) => LockTx(s, t, SubmitSend(count, 0))
    case SubmitSend(count, done) => if done >= count then Put(s, t, UnlockTx(Idle), s.d) else s
    case SubmitWait(count) => Put(s, t, SubmitEnter(count), s.d)
    case _ => s
  }

  /** sg2002_rtos_message_call. */
  function GoCall(s: State, t: nat): State
    requires t < |s.pcs|
  {
    var d := s.d;
    match s.pcs[t]
    case CallEnter => LockRx(s, t, CallLock)
    case CallLock => LockTx(s, t, CallSend)
    case CallMakeRoom =>
      if d.inbox == [] then Put(s, t, UnlockRx(CallPoll), d)
      else if |d.pending| >= RETAIN_LIMIT then Put(s, t, UnlockRx(Idle), Pop(d, Lost))
      else Put(s, t, Signal(UnlockRx(CallEnter)), RetainHead(d))
    case CallPoll => Put(s, t, CallEnter, d)
    case CallScan(id, sequence) =>
      var index := IndexOf(d.pending, sequence);
      if index < |d.pending| then Put(s, t, Consume(UnlockRx(Idle)), ClaimPending(d, id, index))
      else Put(s, t, CallReceive(id, sequence), d)
    case CallReceive(id, sequence) =>
      if d.inbox == [] then Put(s, t, CallAwait(id, sequence), d)
      else if d.inbox[0].sequence == sequence then Put(s, t, UnlockRx(Idle), ClaimHead(d, id))
      else if |d.pending| >= RETAIN_LIMIT then Put(s, t, UnlockRx(Idle), Pop(d, Lost))
      else Put(s, t, Signal(CallClock(id, sequence)), RetainHead(d))
    case CallAwait(id, sequence) =>
      if d.inbox != [] then Put(s, t, CallScan(id, sequence), d) else s
    case CallClock(id, sequence) => Put(s, t, CallScan(id, sequence), d)
    case _ => s
  }

  /** eventfd accesses and unlocking. An empty semaphore fails the read. */
  function GoShared(s: State, t: nat): State
    requires t < |s.pcs|
  {
    var d := s.d;
    match s.pcs[t]
    case Signal(next) => Put(s, t, next, d.(eventCount := d.eventCount + 1))
    case Consume(next) =>
      if d.eventCount > 0 then Put(s, t, next, d.(eventCount := d.eventCount - 1))
      else Put(s, t, UnlockRx(Failed), d)
    case UnlockRx(next) => s.(pcs := s.pcs[t := next], rx := FREE)
    case UnlockTx(next) => s.(pcs := s.pcs[t := next], tx := FREE)
    case _ => s
  }

  function GoAny(s: State, t: nat): State
    requires t < |s.pcs|
  {
    var pc := s.pcs[t];
    if pc.ReceiveEnter? || pc.ReceiveTake? || pc.ReceiveWait? then GoReceive(s, t)
    else if pc.ReapEnter? || pc.ReapTake? || pc.ReapWait? then GoReap(s, t)
    else if pc.SubmitEnter? || pc.SubmitSend? || pc.SubmitWait? then GoSubmit(s, t)
    else if pc.Signal? || pc.Consume? || pc.UnlockRx? || pc.UnlockTx? then GoShared(s, t)
    else GoCall(s, t)
  }

  /** The driver takes a request. */
  function GoAccept(s: State, t: nat, sequence: u32): State
    requires t < |s.pcs|
  {
    var d := s.d;
    if !Fresh(d, sequence) then s
    else
      var id := |d.sequences|;
      match s.pcs[t]
      case SubmitSend(count, done) =>
        if done < count then Put(s, t, SubmitSend(count, done + 1), Admit(d, sequence)) else s
      case CallSend =>
        var marked := if Carries(d.pending, sequence) then d.stale + {id} else d.stale;
        Put(s, t, UnlockTx(CallScan(id, sequence)), Admit(d, sequence).(stale := marked))
      case _ => s
  }

  /** The driver has no room. */
  function GoRefuse(s: State, t: nat): State
    requires t < |s.pcs|
  {
    match s.pcs[t]
    case SubmitSend(count, done) => Put(s, t, UnlockTx(if done > 0 then Idle else SubmitWait(count)), s.d)
    case CallSend => Put(s, t, UnlockTx(CallMakeRoom), s.d)
    case _ => s
  }

  /** An ioctl fails for good. */
  function GoFail(s: State, t: nat): State
    requires t < |s.pcs|
  {
    match s.pcs[t]
    case SubmitSend(_, _) => Put(s, t, UnlockTx(Idle), s.d)
    case CallSend => Put(s, t, UnlockTx(UnlockRx(Idle)), s.d)
    case ReceiveTake(_) => if s.d.pending == [] then Put(s, t, UnlockRx(Idle), s.d) else s
    case ReapTake(_, _, kernel) => if kernel then Put(s, t, UnlockRx(Idle), s.d) else s
    case CallMakeRoom => Put(s, t, UnlockRx(Idle), s.d)
    case CallReceive(_, _) => Put(s, t, UnlockRx(Idle), s.d)
    case _ => s
  }

  /** A wait ends at the caller's deadline. */
  function GoExpire(s: State, t: nat): State
    requires t < |s.pcs|
  {
    var pc := s.pcs[t];
    if pc.ReceiveWait? || pc.ReapWait? || pc.SubmitWait? || pc.CallPoll? then Put(s, t, Idle, s.d)
    else if pc.CallAwait? || pc.CallClock? then Put(s, t, UnlockRx(Idle), s.d)
    else s
  }

  predicate Entry0(op: Pc) {
    op.ReceiveEnter? || op.CallEnter? || (op.ReapEnter? && 0 < op.count <= 64) || (op.SubmitEnter? &&
        0 < op.count <= 64)
  }

  function GoArrive(d: Data, id: nat, length: u16): Data {
    if id in d.inFlight && id < |d.sequences| && !InInbox(d, id) then
      var m := Msg(id, d.sequences[id], length);
      d.(inbox := d.inbox + [m], arrived := d.arrived + [m])
    else d
  }

  /** One step of one thread or of the kernel; a label that is not enabled
      changes nothing. */
  function Step(s: State, l: Label): (r: State)
    ensures |r.pcs| == |s.pcs|
  {
    match l
    case Arrive(id, length) => s.(d := GoArrive(s.d, id, length))
    case Begin(t, op) =>
      if t < |s.pcs| && s.pcs[t].Idle? && Entry0(op) then Put(s, t, op, s.d) else s
    case Go(t) => if t < |s.pcs| then GoAny(s, t) else s
    case Accept(t, sequence) => if t < |s.pcs| then GoAccept(s, t, sequence) else s
    case Refuse(t) => if t < |s.pcs| then GoRefuse(s, t) else s
    case Fail(t) => if t < |s.pcs| then GoFail(s, t) else s
    case Batch(t, n) => if t < |s.pcs| then GoBatch(s, t, n) else s
    case Expire(t) => if t < |s.pcs| then GoExpire(s, t) else s
  }

  function Run(s: State, ls: seq<Label>): State
    decreases |ls|
  {
    if ls == [] then s else Run(Step(s, ls[0]), ls[1..])
  }

  function Start(threads: nat): State {
    State(seq(threads, _ => Idle), FREE, FREE, Data([], 0, [], {}, [], [], [], [], [], {}))
  }
}
