/** The Linux library: retained responses kept in step with an eventfd
    semaphore, receive, batch and synchronous calls, and deadlines.

    A handle is seen here by one thread at a time; the locks that make it so
    are the subject of LibraryThreads. */
module Library {
  import opened Wrap
  import opened Shm
  import opened Ledgers
  import opened Worlds

  const U32_MAX: u32 := 0xffff_ffff
  const INT_MAX: u32 := 0x7fff_ffff

  datatype Support = Unknown | Supported | Unsupported

  /** A deadline in uint64_t milliseconds. */
  function DeadlineOf(now: nat, timeout: u32): (d: nat)
    ensures now < CLOCK_LIMIT ==> d == now + timeout
  {
    (now + timeout) % TWO_64
  }

  /** The time to a deadline, clamped and narrowed to uint32_t as the C code
      does; it is never the infinite timeout. */
  function TimeLeft(deadline: nat, now: nat): (r: u32)
    requires now < deadline
    ensures r < U32_MAX
    ensures deadline - now < U32_MAX ==> r == deadline - now
  {
    var difference := (deadline - now) % TWO_64;
    if difference >= U32_MAX then U32_MAX - 1 else Low32(difference)
  }

  /** The world at a call's first attempt: a finite timeout reads the clock before. */
  function Begun(w: World, timeout: u32): World {
    if timeout == 0 || timeout == U32_MAX then w else Tick(w)
  }

  predicate Tame(ms: seq<Slot>) {
    forall i :: 0 <= i < |ms| ==> HonestResponse(ms[i])
  }

  lemma TameParts(ms: seq<Slot>, m: Slot, rest: seq<Slot>)
    requires Tame(ms) && ms == [m] + rest
    ensures Sendable(m) && Tame(rest)
  {
    assert HonestResponse(ms[0]);
    forall i | 0 <= i < |rest| ensures HonestResponse(rest[i]) {
      assert rest[i] == ms[i + 1];
    }
  }

  lemma TameAppend(ms: seq<Slot>, m: Slot)
    requires Tame(ms) && HonestResponse(m)
    ensures Tame(ms + [m])
  {
  }

  /** What a caller learns from one message offered to its buffer. */
  predicate Received(m: Slot, capacity: u16, s: Status, length: u16, sequence: u32, before: seq<bv8>, after: seq<bv8>) {
    && Sendable(m) && length == m.length && sequence == m.sequence
    && if length > capacity then s == EMsgSize && after == before
       else s == Ok && length <= |before| && after == Used(m).bytes + before[length..]
  }

  /** What the receive ioctl reports when it has no response. */
  function ReceiveError(w: World): (e: Status)
    ensures Honest(w) ==> e == EAgain || e == ETimedOut || e.Errno?
    ensures w.script != [] && w.script[0].answer.Refuse? && w.script[0].answer.error.Errno? ==>
              e == w.script[0].answer.error
    ensures e.Errno? ==> Refused(Tick(w), e) && |Tick(w).past| == |w.past| + 1
  {
    if w.script == [] || w.script[0].answer.Accept? || w.script[0].answer.error == ENoTty then EAgain
    else assert Honest(w) ==> HonestMove(w.script[0]); w.script[0].answer.error
  }

  /** The next ioctl finds no response and fails for good. */
  predicate FailsForGood(w: World) {
    Tick(w).inbox == [] && w.script != [] && w.script[0].answer.Refuse? && w.script[0].answer.error.Errno?
  }

  /** An answer after which a call waits and tries again. */
  predicate Retried(s: Status) {
    s == EAgain || s == ETimedOut
  }

  predicate Retriable(answer: Answer) {
    answer.Refuse? && Retried(answer.error)
  }

  /** The next ioctl is not known to the driver. */
  predicate NoIoctl(w: World) {
    w.script != [] && w.script[0].answer == Refuse(ENoTty)
  }

  /** The world when the kernel is asked for responses or given a request: an
      unknown batch ioctl comes before, as long as it is not known to be one. */
  function Asked(w: World, support: Support): World {
    if support != Unsupported && NoIoctl(w) then Tick(w) else w
  }

  /** The driver's answer to one request is the result of sending it. */
  predicate Sent(answer: Answer, s: Status, sequence: u32) {
    match answer
    case Accept(sequences) => s == Ok && sequences != [] && sequence == sequences[0]
    case Refuse(e) => s == e && e != Ok
  }

  /** The batch ioctl takes as many requests as the driver gives sequences for,
      each under its own, or none. */
  predicate SentAtOnce(script: seq<Move>, count: nat, s: Status, completed: nat, batch: seq<Slot>, rest: seq<Move>) {
    if script == [] then s == Blocked && completed == 0 && rest == []
    else
      && rest == script[1..]
      && match script[0].answer
         case Accept(sequences) =>
           && s == Ok && completed == |batch| == Least(count, |sequences|)
           && forall i :: 0 <= i < completed ==> batch[i].sequence == sequences[i]
         case Refuse(e) => s == e && completed == 0
  }

  /** One ioctl for each request takes as many as the driver accepts in a row.
      The first refusal is the result, except when it only asks to try again
      and something has been taken before. */
  predicate SentSingly(script: seq<Move>, count: nat, s: Status, completed: nat, batch: seq<Slot>, rest: seq<Move>) {
    && completed == |batch| == Least(count, Accepting(script))
    && (forall i :: 0 <= i < completed ==>
          script[i].answer.Accept? && script[i].answer.sequences != [] &&
          batch[i].sequence == script[i].answer.sequences[0])
    && if completed == count then s == Ok && rest == script[count..]
       else if completed == |script| then s == Blocked && rest == []
       else
         && rest == script[completed + 1..] && script[completed].answer.Refuse?
         && s == if completed > 0 && Retriable(script[completed].answer) then Ok else script[completed].answer.error
  }

  /** The requests of the batch have been accepted one by one, so far. */
  predicate Taking(script: seq<Move>, batch: seq<Slot>, rest: seq<Move>) {
    && |batch| <= |script| && rest == script[|batch|..]
    && forall i :: 0 <= i < |batch| ==>
         script[i].answer.Accept? && script[i].answer.sequences != [] &&
         batch[i].sequence == script[i].answer.sequences[0]
  }

  lemma NothingTaken(script: seq<Move>)
    ensures Taking(script, [], script)
  {
  }

  lemma TakesOneMore(script: seq<Move>, batch: seq<Slot>, rest: seq<Move>, m: Slot)
    requires Taking(script, batch, rest) && rest != [] && Sent(rest[0].answer, Ok, m.sequence)
    ensures Taking(script, batch + [m], rest[1..])
  {
    assert rest[0] == script[|batch|];
  }

  lemma TakesAll(script: seq<Move>, batch: seq<Slot>, rest: seq<Move>)
    requires Taking(script, batch, rest)
    ensures SentSingly(script, |batch|, Ok, |batch|, batch, rest)
  {
    AcceptingIs(script, |batch|);
  }

  lemma TakesNoMore(script: seq<Move>, batch: seq<Slot>, rest: seq<Move>, count: nat, s: Status, sequence: u32)
    requires Taking(script, batch, rest) && |batch| < count
    requires if rest == [] then s == Blocked else s != Ok && Sent(rest[0].answer, s, sequence)
    ensures SentSingly(script, count, if batch != [] && Retried(s) then Ok else s, |batch|, batch,
                       if rest == [] then [] else rest[1..])
  {
    AcceptingIs(script, |batch|);
    if rest != [] {
      assert rest[0] == script[|batch|];
    }
  }

  /** One attempt at a batch: at once, or one by one for a driver without the
      batch ioctl, also when that has only now turned out. */
  predicate Attempted(w: World, support: Support, count: nat, s: Status, completed: nat, batch: seq<Slot>,
      rest: seq<Move>)
  {
    if support == Unsupported || NoIoctl(w) then SentSingly(Asked(w, support).script, count, s, completed, batch, rest)
    else SentAtOnce(w.script, count, s, completed, batch, rest)
  }

  function SupportAfter(w: World, support: Support): Support {
    if support == Unsupported || NoIoctl(w) then Unsupported else if w.script == [] then support else Supported
  }

  /** A driver that turns out to have no batch ioctl is sent the requests one by
      one: the call goes on where a second try would have begun. */
  lemma FallbackSends(w: World, support: Support, count: nat, s: Status, completed: nat, batch: seq<Slot>,
      rest: seq<Move>)
    requires Attempted(w, support, count, s, completed, batch, rest) && count > 0 && support != Unsupported
    requires |w.script| >= 2 && w.script[0].answer == Refuse(ENoTty) && w.script[1].answer.Accept?
    ensures SupportAfter(w, support) == Unsupported
    ensures 0 < completed == Least(count, Accepting(w.script[1..]))
    ensures completed == count ==> s == Ok
    ensures completed < count && completed + 1 < |w.script| ==>
              s == if Retriable(w.script[completed + 1].answer) then Ok else w.script[completed + 1].answer.error
  {
    AcceptingIs(w.script[1..], 1);
  }

  /** The driver takes nothing and asks to try again. */
  predicate Retries(w: World, support: Support) {
    Asked(w, support).script != [] && Retriable(Asked(w, support).script[0].answer)
  }

  lemma SinglyRetries(script: seq<Move>, count: nat, s: Status, completed: nat, batch: seq<Slot>, rest: seq<Move>)
    requires SentSingly(script, count, s, completed, batch, rest) && count > 0
    ensures Retried(s) <==> script != [] && Retriable(script[0].answer)
    ensures Retried(s) ==> completed == 0
    ensures completed == 0 && s != Blocked ==> script != []
  {
    var n := Accepting(script);
    if n > 0 {
      assert completed > 0;
      assert script[0].answer.Accept?;
    }
  }

  lemma AttemptRetries(w: World, support: Support, count: nat, s: Status, completed: nat, batch: seq<Slot>,
      rest: seq<Move>)
    requires Attempted(w, support, count, s, completed, batch, rest) && count > 0
    ensures Retried(s) <==> Retries(w, support)
    ensures Retried(s) ==> completed == 0 && |Tick(Asked(w, support)).past| == |Asked(w, support).past| + 1
    ensures completed == 0 && s != Blocked ==> w.script != []
  {
    hide SentSingly;
    if support == Unsupported || NoIoctl(w) {
      SinglyRetries(Asked(w, support).script, count, s, completed, batch, rest);
    }
  }

  /** Whatever is with the kernel when it is asked is reaped, as far as the batch
      has places: at once by the batch ioctl, and at least that one at a time.
      If there is nothing, that is the answer. */
  predicate FirstReap(w: World, support: Support, count: nat, s: Status, completed: nat) {
    var asked := Asked(w, support);
    var there := Tick(asked).inbox;
    if there == [] then s == ReceiveError(asked) && completed == 0
    else if support == Unsupported || NoIoctl(w) then !Retried(s) && completed >= Least(count, |there|)
    else s == Ok && completed == Least(count, |there|)
  }

  /** The first attempt to reap ends the call. */
  predicate Answers(w: World, support: Support) {
    Tick(Asked(w, support)).inbox != [] || FailsForGood(Asked(w, support))
  }

  lemma NothingAnswers(w: World, support: Support, count: nat, s: Status, completed: nat)
    requires FirstReap(w, support, count, s, completed) && Retried(s) && count > 0
    ensures !Answers(w, support)
  {
  }

  function Least(a: nat, b: nat): nat {
    if a < b then a else b
  }

  predicate HeadIs(ms: seq<Slot>, sequence: u32) {
    ms != [] && ms[0].sequence == sequence
  }

  /** The first response with this sequence, or the end. */
  function FirstWith(ms: seq<Slot>, sequence: u32): (i: nat)
    ensures i <= |ms| && (i < |ms| ==> ms[i].sequence == sequence)
    ensures forall j :: 0 <= j < i ==> ms[j].sequence != sequence
  {
    if ms == [] || ms[0].sequence == sequence then 0 else FirstWith(ms[1..], sequence) + 1
  }

  /** The first k responses that were there have been taken, and the awaited
      one comes after them. */
  predicate Ahead(there: seq<Slot>, sequence: u32, k: nat, w: World) {
    && k <= FirstWith(there, sequence) < |there|
    && if k == 0 then there == Tick(w).inbox else there[k..] <= w.inbox
  }

  lemma AheadAtFirst(w: World, sequence: u32)
    ensures FirstWith(Tick(w).inbox, sequence) < |Tick(w).inbox| ==> Ahead(Tick(w).inbox, sequence, 0, w)
  {
  }

  lemma NextAhead(there: seq<Slot>, sequence: u32, k: nat, w: World)
    requires Ahead(there, sequence, k, w)
    ensures Tick(w).inbox != [] && Tick(w).inbox[0] == there[k]
    ensures there[k].sequence == sequence ==> k == FirstWith(there, sequence)
    ensures there[k].sequence != sequence ==>
              k < FirstWith(there, sequence) && Ahead(there, sequence, k + 1, Pop(Tick(w)))
  {
    var rest := there[k..];
    assert rest[0] == there[k] && rest[1..] == there[k + 1..];
    if k > 0 {
      assert rest <= Tick(w).inbox;
    }
  }

  /** Handing a retained response over to a call. */
  lemma ClaimFromPending(l: Ledger<Slot>, delivered: seq<Slot>, retained: seq<Slot>, index: nat) returns (at: nat)
    requires Kepts(l) == delivered + retained && index < |retained| && Tame(retained)
    ensures var r := |delivered| + index;
            var rest := retained[..index] + retained[index + 1..];
            && r < |Kepts(l)| && HonestResponse(retained[index]) && Tame(rest)
            && at < |l| && l[at] == Entry(retained[index], Kept)
            && Claim(l, r) == l[at := Entry(retained[index], Claimed)]
            && Kepts(Claim(l, r)) == delivered + rest && Messages(Claim(l, r)) == Messages(l)
            && Losses(Claim(l, r)) == Losses(l) && Claims(Claim(l, r)) == Claims(l) + 1
  {
    hide HonestResponse, Kepts, Messages, Losses, Claims, Claim;
    var r := |delivered| + index;
    ClaimRemoves(l, r);
    at := ClaimedEntry(l, r);
    var rest := retained[..index] + retained[index + 1..];
    assert (delivered + retained)[..r] + (delivered + retained)[r + 1..] == delivered + rest;
    forall i | 0 <= i < |rest| ensures HonestResponse(rest[i]) {
      assert rest[i] == retained[if i < index then i else i + 1];
    }
  }

  /** The retained responses are the kept messages behind the delivered ones. */
  lemma KeptBehind(l: Ledger<Slot>, delivered: seq<Slot>, retained: seq<Slot>, sequence: u32)
    requires Kepts(l) == delivered + retained
    ensures delivered <= Kepts(l)
    ensures (exists i :: |delivered| <= i < |Kepts(l)| && Kepts(l)[i].sequence == sequence)
       <==> (exists i :: 0 <= i < |retained| && retained[i].sequence == sequence)
  {
    hide Kepts;
    if i :| 0 <= i < |retained| && retained[i].sequence == sequence {
      assert Kepts(l)[|delivered| + i].sequence == sequence;
    }
  }

  lemma HonestIsSendable(m: Slot)
    requires HonestResponse(m)
    ensures Sendable(m)
  {
  }

  lemma ReceivedSequence(m: Slot, capacity: u16, s: Status, length: u16, sequence: u32, before: seq<bv8>,
      after: seq<bv8>)
    requires Received(m, capacity, s, length, sequence, before, after)
    ensures sequence == m.sequence && (s == Ok || s == EMsgSize) && (s == EMsgSize ==> after == before)
  {
  }

  lemma Regroup(a: seq<Slot>, m: Slot, b: seq<Slot>)
    ensures a + ([m] + b) == (a + [m]) + ([] + b) && [] + b == b
  {
  }

  class Handle {
    const pending: array<Slot>
    var pendingCount: nat
    var eventCount: nat
    var submitBatch: Support
    var reapBatch: Support
    var world: World

    // What became of the messages taken from the kernel, and the messages
    // handed to receive and reap callers.
    ghost var ledger: Ledger<Slot>
    ghost var delivered: seq<Slot>

    ghost predicate Valid()
      reads this`pendingCount
    {
      pending.Length == SLOT_COUNT && pendingCount <= SLOT_COUNT
    }

    /** Responses retained for receivers, oldest first. */
    ghost function Retained(): seq<Slot>
      requires Valid()
      reads this`pendingCount, pending
    {
      pending[..pendingCount]
    }

    /** The semaphore counts the retained responses. */
    ghost predicate Steady()
      reads this`pendingCount, this`eventCount
    {
      Valid() && eventCount == pendingCount
    }

    /** Receivers have been, or will be, handed the kept messages in order. */
    ghost predicate UserSide()
      reads this`pendingCount, this`ledger, this`delivered, pending
    {
      Valid() && Kepts(ledger) == delivered + Retained() && Tame(Retained())
    }

    /** The ledger, the message in hand and the kernel's queue are the
        messages that arrived, in order. */
    ghost predicate KernelSide(hand: seq<Slot>)
      reads this`ledger, this`world
    {
      Honest(world) && world.arrived == Messages(ledger) + (hand + world.inbox)
    }

    ghost predicate Accounted()
      reads this`pendingCount, this`eventCount, this`ledger, this`delivered, this`world, pending
    {
      Steady() && UserSide() && KernelSide([])
    }

    constructor (w: World)
      requires Honest(w) && w.arrived == w.inbox
      ensures Accounted() && fresh(pending) && world == w
      ensures ledger == [] && delivered == [] && pendingCount == 0
      ensures submitBatch == Unknown && reapBatch == Unknown
    {
      pending := new Slot[SLOT_COUNT](_ => BLANK);
      pendingCount, eventCount, world := 0, 0, w;
      submitBatch, reapBatch := Unknown, Unknown;
      ledger, delivered := [], [];
    }

    // -------------------------------------------------------------- retained responses

    /** eventfd write; it would block only at its 64-bit limit. */
    method PendingEventSignal() returns (s: Status)
      modifies this`eventCount
      ensures s == if old(eventCount) < TWO_64 - 2 then Ok else EAgain
      ensures eventCount == if s == Ok then old(eventCount) + 1 else old(eventCount)
    {
      if eventCount >= TWO_64 - 2 {
        return EAgain;
      }
      eventCount := eventCount + 1;
      s := Ok;
    }

    /** eventfd read in semaphore mode. */
    method PendingEventConsume() returns (s: Status)
      modifies this`eventCount
      ensures s == if old(eventCount) > 0 then Ok else EAgain
      ensures eventCount == if s == Ok then old(eventCount) - 1 else 0
    {
      if eventCount == 0 {
        return EAgain;
      }
      eventCount := eventCount - 1;
      s := Ok;
    }

    method RetainPending(m: Slot) returns (s: Status)
      requires Valid()
      modifies this`pendingCount, this`eventCount, pending
      ensures Valid()
      ensures old(Steady()) ==> Steady()
      ensures s == ENoBufs <==> old(pendingCount) == SLOT_COUNT
      ensures old(Steady()) ==> s == Ok || s == ENoBufs
      ensures Retained() == if s == Ok then old(Retained()) + [m] else old(Retained())
    {
      if pendingCount >= SLOT_COUNT {
        return ENoBufs;
      }
      pending[pendingCount] := m;
      pendingCount := pendingCount + 1;
      s := PendingEventSignal();
      if s != Ok {
        pendingCount := pendingCount - 1;
      }
    }

    /** Takes one retained response out of the middle. The EPROTO branch needs a
        semaphore that is out of step. */
    method RemovePending(index: nat) returns (s: Status)
      requires Valid()
      modifies this`pendingCount, this`eventCount, pending
      ensures Valid()
      ensures index >= old(pendingCount) ==>
                s == ENoEnt && Retained() == old(Retained()) && eventCount == old(eventCount)
      ensures index < old(pendingCount) ==>
                && Retained() == old(Retained())[..index] + old(Retained())[index + 1..]
                && s == if old(eventCount) > 0 then Ok else EProto
      ensures old(Steady()) ==> Steady() && s != EProto
    {
      if index >= pendingCount {
        return ENoEnt;
      }
      ghost var was := pending[..];
      pendingCount := pendingCount - 1;
      var k := index;
      while k < pendingCount
        modifies pending
        invariant index <= k <= pendingCount
        invariant forall j :: 0 <= j < index ==> pending[j] == was[j]
        invariant forall j :: index <= j < k ==> pending[j] == was[j + 1]
        invariant forall j :: k <= j < pending.Length ==> pending[j] == was[j]
      {
        pending[k] := pending[k + 1];
        k := k + 1;
      }
      s := PendingEventConsume();
      if s == EAgain {
        s := EProto;
      }
    }

    /** One for a message, zero for none, EProto for a semaphore out of step. */
    method TakePendingOldest() returns (s: Status, found: bool, m: Slot)
      requires Valid()
      modifies this`pendingCount, this`eventCount, pending
      ensures Valid()
      ensures found ==> s == Ok && old(Retained()) == [m] + Retained()
      ensures !found && s == Ok ==> old(pendingCount) == 0 && pendingCount == 0 && eventCount == old(eventCount)
      ensures old(Steady()) ==> Steady() && s == Ok
    {
      m, found := BLANK, false;
      if pendingCount == 0 {
        return Ok, false, m;
      }
      m := pending[0];
      s := RemovePending(0);
      found := s == Ok;
    }

    /** The oldest retained response with this sequence. */
    method TakePendingSequence(sequence: u32) returns (s: Status, found: bool, m: Slot, ghost index: nat)
      requires Valid()
      modifies this`pendingCount, this`eventCount, pending
      ensures Valid()
      ensures old(Steady()) ==> Steady() && s == Ok
      ensures found ==>
                && index < |old(Retained())| && old(Retained())[index] == m && m.sequence == sequence
                && (forall i :: 0 <= i < index ==> old(Retained())[i].sequence != sequence)
                && Retained() == old(Retained())[..index] + old(Retained())[index + 1..]
      ensures s == Ok && !found ==>
                && Retained() == old(Retained())
                && forall i :: 0 <= i < |Retained()| ==> Retained()[i].sequence != sequence
    {
      m, index := BLANK, 0;
      var i := 0;
      while i < pendingCount
        invariant i <= pendingCount == old(pendingCount) && Valid()
        invariant pending[..] == old(pending[..]) && eventCount == old(eventCount)
        invariant forall j :: 0 <= j < i ==> Retained()[j].sequence != sequence
      {
        if pending[i].sequence == sequence {
          m, index := pending[i], i;
          assert Retained()[i] == m;
          s := RemovePending(i);
          if s != Ok {
            return EProto, false, m, index;
          }
          return Ok, true, m, index;
        }
        i := i + 1;
      }
      return Ok, false, m, index;
    }

    // -------------------------------------------------------------- clock, poll and deadlines

    /** Something that poll would report for these events. */
    ghost predicate Ready(wantIn: bool, wantOut: bool, both: bool)
      reads this`eventCount, this`world
    {
      || (wantIn && world.inbox != [])
      || (wantOut && world.room)
      || (both && eventCount > 0)
    }

    method MonotonicMilliseconds() returns (t: nat)
      requires Honest(world)
      modifies this`world
      ensures Honest(world) && Later(old(world), world)
      ensures world == Tick(old(world)) && t == world.now < CLOCK_LIMIT
      ensures old(world.now) <= world.now && |world.script| <= |old(world.script)|
      ensures old(world.script) == [] ==> world == old(world)
      ensures old(world.inbox) == [] ==> NothingMissed(world)
      ensures old(world.past) <= world.past && |world.past| <= |old(world.past)| + 1
      ensures Evolved(old(world), world)
    {
      TickIsLater(world);
      TickBrings(world);
      world := Tick(world);
      t := world.now;
    }

    /** poll on the device and, if `both`, on the semaphore. A finite timeout
        may end without readiness, early or late; an infinite one may not. */
    method Poll(wantIn: bool, wantOut: bool, both: bool, timeout: int)
      returns (blocked: bool, ready: bool, revIn: bool, revOut: bool, revPending: bool)
      requires Honest(world)
      modifies this`world
      ensures Honest(world) && Later(old(world), world)
      ensures old(world.now) <= world.now && |world.script| <= |old(world.script)|
      ensures old(Ready(wantIn, wantOut, both)) ==> !blocked && ready && world == old(world)
      ensures ready ==> !blocked
      ensures ready <==> revIn || revOut || revPending
      ensures revIn ==> wantIn && world.inbox != []
      ensures revOut ==> wantOut && world.room
      ensures revPending ==> both && eventCount > 0
      ensures both && eventCount > 0 ==> revPending
      ensures !ready && !blocked ==> timeout >= 0 && |world.script| < |old(world.script)|
      ensures blocked ==> world.script == [] && !Ready(wantIn, wantOut, both)
      ensures old(world.script) == [] && !old(Ready(wantIn, wantOut, both)) ==> blocked
      ensures !ready ==> !Ready(wantIn, wantOut, both)
      ensures !ready && wantOut ==> NoRoomSince(|old(world.past)|, world)
      ensures old(world.past) <= world.past
      ensures Evolved(old(world), world)
    {
      hide Honest, Later, Tick, NoRoomSince, Evolved;
      LaterIsReflexive(world);
      LaterKeeps(world, world);
      NoRoomAtFirst(|world.past|, world);
      while true
        invariant Honest(world) && Later(old(world), world)
        invariant old(world.now) <= world.now && |world.script| <= |old(world.script)|
        invariant old(world.past) <= world.past && Evolved(old(world), world)
        invariant wantOut ==> NoRoomSince(|old(world.past)|, world)
        invariant old(Ready(wantIn, wantOut, both)) ==> world == old(world)
        invariant old(world.script) == [] ==> world == old(world)
        invariant both && eventCount > 0 ==> Ready(wantIn, wantOut, both)
        decreases |world.script|
      {
        revIn := wantIn && world.inbox != [];
        revOut := wantOut && world.room;
        revPending := both && eventCount > 0;
        if revIn || revOut || revPending {
          return false, true, revIn, revOut, revPending;
        }
        if world.script == [] {
          return true, false, false, false, false;
        }
        TickGoesOn(old(world), world, wantOut);
        world := Tick(world);
        LaterKeeps(old(world), world);
        if timeout >= 0 && !(wantIn && world.inbox != []) && !(wantOut && world.room) {
          return false, false, false, false, false;
        }
      }
    }

    method TimeoutDeadline(timeout: u32) returns (deadline: nat)
      requires Honest(world)
      modifies this`world
      ensures Honest(world) && Later(old(world), world)
      ensures Armed(old(world.now), timeout, deadline)
      ensures world == Begun(old(world), timeout)
      ensures Evolved(old(world), world)
    {
      LaterIsReflexive(world);
      if timeout == 0 || timeout == U32_MAX {
        return 0;
      }
      var now := MonotonicMilliseconds();
      deadline := DeadlineOf(now, timeout);
    }

    /** A finite deadline lies a full timeout after the call began; zero and
        infinite timeouts have none. */
    ghost predicate Armed(start: nat, timeout: u32, deadline: nat)
      reads this`world
    {
      if timeout == 0 || timeout == U32_MAX then deadline == 0
      else start + timeout <= deadline <= world.now + timeout
    }

    /** The narrowing loses nothing and a finite timeout never becomes the
        infinite one. */
    method UpdateRemaining(timeout: u32, deadline: nat, ghost start: nat) returns (s: Status, remaining: u32)
      requires Honest(world) && timeout != 0 && Armed(start, timeout, deadline)
      modifies this`world
      ensures Honest(world) && Later(old(world), world) && Armed(start, timeout, deadline)
      ensures s == Ok || s == ETimedOut
      ensures old(world.script) == [] ==> world == old(world)
      ensures old(world.now) <= world.now && |world.script| <= |old(world.script)|
      ensures timeout == U32_MAX ==> s == Ok && remaining == U32_MAX && world == old(world)
      ensures timeout != U32_MAX ==> (s == ETimedOut <==> world.now >= deadline)
      ensures timeout != U32_MAX && s == Ok ==> 0 < remaining < U32_MAX && world.now + remaining == deadline
      ensures old(world.inbox) == [] ==> NothingMissed(world)
      ensures old(world.past) <= world.past && |world.past| <= |old(world.past)| + 1
      ensures Evolved(old(world), world)
    {
      hide Course, EndOfTime, AllArrivals, Honest, Later, Tick, TimeLeft;
      LaterIsReflexive(world);
      if timeout == U32_MAX {
        return Ok, U32_MAX;
      }
      var now := MonotonicMilliseconds();
      if now >= deadline {
        return ETimedOut, 0;
      }
      remaining := TimeLeft(deadline, now);
      s := Ok;
    }

    /** One poll of sg2002_rtos_wait. */
    method Look(wantIn: bool, wantOut: bool, timeout: int, ghost from: World) returns (blocked: bool, ready: bool,
        revIn: bool, revOut: bool)
      requires Honest(world) && Later(from, world) && from.past <= world.past
      requires wantOut ==> NoRoomSince(|from.past|, world)
      modifies this`world
      ensures Honest(world) && Later(from, world) && from.past <= world.past
      ensures !ready && wantIn ==> world.inbox == []
      ensures !ready && wantOut ==> !world.room && NoRoomSince(|from.past|, world)
      ensures ready ==> !blocked && (revIn || revOut)
      ensures revIn ==> wantIn && (world.inbox != [] || eventCount > 0)
      ensures revOut ==> wantOut && world.room
      ensures wantIn && eventCount > 0 ==> ready && revIn
      ensures !ready && !blocked ==> timeout >= 0 && |world.script| < |old(world.script)|
      ensures blocked ==> world.script == [] && !Ready(wantIn, wantOut, wantIn)
      ensures old(Ready(wantIn, wantOut, wantIn)) ==> !blocked && ready && world == old(world)
      ensures old(world.script) == [] && !old(Ready(wantIn, wantOut, wantIn)) ==> blocked
      ensures old(world.now) <= world.now && |world.script| <= |old(world.script)|
    {
      hide Course, EndOfTime, AllArrivals, Honest, Later, Tick, NoRoomSince;
      var inn, pending;
      blocked, ready, inn, revOut, pending := Poll(wantIn, wantOut, wantIn, timeout);
      if wantOut && !ready {
        NoRoomYet(from, old(world), world);
      }
      LaterIsTransitive(from, old(world), world);
      revIn := inn || pending;
    }

    /** The look at the clock behind it. */
    method LookAtClock(wantOut: bool, ghost from: World) returns (now: nat)
      requires Honest(world) && Later(from, world) && from.past <= world.past
      requires wantOut ==> !world.room && NoRoomSince(|from.past|, world)
      modifies this`world
      ensures Honest(world) && Later(from, world) && from.past <= world.past
      ensures wantOut ==> NoRoomSince(|from.past|, world)
      ensures old(world.inbox) == [] ==> NothingMissed(world)
      ensures now == world.now && old(world.now) <= world.now && |world.script| <= |old(world.script)|
      ensures old(world.script) == [] ==> world == old(world)
    {
      hide Course, EndOfTime, AllArrivals, Honest, Later, Tick, NoRoomSince, NothingMissed;
      now := MonotonicMilliseconds();
      NoRoomAtFirst(|old(world.past)|, world);
      if wantOut {
        NoRoomYet(from, old(world), world);
      }
      LaterIsTransitive(from, old(world), world);
    }

    /** sg2002_rtos_wait. */
    method Wait(wantIn: bool, wantOut: bool, timeout: u32) returns (blocked: bool, ready: bool, revIn: bool,
        revOut: bool)
      requires Honest(world)
      modifies this`world
      ensures Honest(world) && Later(old(world), world)
      ensures ready ==> !blocked && (revIn || revOut)
      ensures revIn ==> wantIn && (world.inbox != [] || eventCount > 0)
      ensures revOut ==> wantOut && world.room
      ensures wantIn && eventCount > 0 ==> ready && revIn
      ensures !ready && !blocked ==> timeout != U32_MAX && world.now >= old(world.now) + timeout
      ensures blocked ==> world.script == [] && !Ready(wantIn, wantOut, wantIn)
      ensures ready && old(world.script) == [] ==> old(Ready(wantIn, wantOut, wantIn))
      ensures old(world.now) <= world.now && |world.script| <= |old(world.script)|
      ensures !ready && !blocked && wantIn ==> NothingMissed(world)
      ensures !ready && !blocked && wantOut ==> NoRoomSince(|old(world.past)|, world)
      ensures old(world.past) <= world.past
      ensures Evolved(old(world), world)
    {
      hide Course, EndOfTime, AllArrivals, Honest, Later, Tick, DeadlineOf, TimeLeft, NothingMissed, NoRoomSince;
      LaterIsReflexive(world);
      var deadline := 0;
      if timeout != U32_MAX {
        var now := MonotonicMilliseconds();
        deadline := DeadlineOf(now, timeout);
      }
      NoRoomAtFirst(|old(world.past)|, world);
      var remaining := timeout;
      revIn, revOut := false, false;
      while true
        invariant Honest(world) && Later(old(world), world) && old(world.past) <= world.past
        invariant old(world.now) <= world.now && |world.script| <= |old(world.script)|
        invariant timeout == U32_MAX <==> remaining == U32_MAX
        invariant timeout != U32_MAX ==> old(world.now) + timeout <= deadline <= world.now + timeout
        invariant old(world.script) == [] ==> world == old(world)
        invariant wantOut ==> NoRoomSince(|old(world.past)|, world)
        decreases |world.script|
      {
        var t := if remaining == U32_MAX then -1 else if remaining > INT_MAX then INT_MAX else remaining;
        blocked, ready, revIn, revOut := Look(wantIn, wantOut, t, old(world));
        LaterKeeps(old(world), world);
        if blocked {
          return true, false, false, false;
        }
        if ready || timeout == U32_MAX {
          return;
        }
        var now := LookAtClock(wantOut, old(world));
        LaterKeeps(old(world), world);
        if now >= deadline {
          return false, false, false, false;
        }
        remaining := TimeLeft(deadline, now);
      }
    }

    /** wait_for_events: a zero timeout does not wait, and the deadline is met
        before a timeout is reported. */
    method WaitForEvents(wantIn: bool, wantOut: bool, timeout: u32, deadline: nat, ghost start: nat) returns (s: Status)
      requires Honest(world) && Armed(start, timeout, deadline)
      modifies this`world
      ensures Honest(world) && Later(old(world), world) && Armed(start, timeout, deadline)
      ensures s == Ok || s == EAgain || s == ETimedOut || s == Blocked
      ensures s == EAgain <==> timeout == 0
      ensures s == ETimedOut ==> timeout != U32_MAX && world.now >= start + timeout
      ensures s == Ok && old(world.script) == [] ==> old(Ready(wantIn, wantOut, wantIn))
      ensures s == Blocked ==> world.script == [] && !Ready(wantIn, wantOut, wantIn)
      ensures |world.script| <= |old(world.script)|
      ensures s == Ok && wantIn && !wantOut ==> world.inbox != [] || eventCount > 0
      ensures s == EAgain ==> world == old(world)
      ensures s == ETimedOut && wantIn && old(world.inbox) == [] ==> NothingMissed(world)
      ensures s == ETimedOut && wantOut ==> NoRoomSince(|old(world.past)| + 1, world)
      ensures Evolved(old(world), world)
    {
      hide Course, EndOfTime, AllArrivals, Honest, Later, Tick;
      LaterIsReflexive(world);
      if timeout == 0 {
        return EAgain;
      }
      var remaining;
      s, remaining := UpdateRemaining(timeout, deadline, start);
      if s != Ok {
        return;
      }
      ghost var before := world;
      var blocked, ready, revIn, revOut := Wait(wantIn, wantOut, remaining);
      LaterIsTransitive(old(world), before, world);
      s := if blocked then Blocked else if !ready then ETimedOut else Ok;
    }

    /** wait_for_kernel_events: the same on the device alone. */
    method WaitForKernelEvents(wantIn: bool, wantOut: bool, timeout: u32, deadline: nat,
        ghost start: nat) returns (s: Status)
      requires Honest(world) && Armed(start, timeout, deadline)
      modifies this`world
      ensures Honest(world) && Later(old(world), world) && Armed(start, timeout, deadline)
      ensures s == Ok || s == EAgain || s == ETimedOut || s == Blocked
      ensures s == EAgain <==> timeout == 0
      ensures s == ETimedOut ==> timeout != U32_MAX && world.now >= start + timeout
      ensures s == EAgain ==> world == old(world)
      ensures s == Ok && old(world.script) == [] ==> old(Ready(wantIn, wantOut, false))
      ensures s == Blocked ==> world.script == [] && !Ready(wantIn, wantOut, false)
      ensures |world.script| <= |old(world.script)|
      ensures Evolved(old(world), world)
    {
      hide Course, EndOfTime, AllArrivals, Honest, Later, Tick;
      LaterIsReflexive(world);
      if timeout == 0 {
        return EAgain;
      }
      while true
        invariant Honest(world) && Later(old(world), world) && Armed(start, timeout, deadline)
        invariant |world.script| <= |old(world.script)|
        invariant old(world.script) == [] ==> world == old(world)
        decreases |world.script|
      {
        var remaining;
        ghost var before := world;
        s, remaining := UpdateRemaining(timeout, deadline, start);
        LaterIsTransitive(old(world), before, world);
        if s != Ok {
          return;
        }
        var t := if remaining == U32_MAX then -1 else if remaining > INT_MAX then INT_MAX else remaining;
        before := world;
        var blocked, ready, a, b, c := Poll(wantIn, wantOut, false, t);
        LaterIsTransitive(old(world), before, world);
        if blocked {
          return Blocked;
        }
        if ready {
          return Ok;
        }
      }
    }

    // -------------------------------------------------------------- receiving

    /** The receive ioctl with a zero timeout; the message, if any, is in hand. */
    method ReceiveFromKernel() returns (s: Status, m: Slot)
      requires KernelSide([])
      modifies this`world
      ensures s == Ok ==>
                && KernelSide([m]) && HonestResponse(m) && Sendable(m)
                && Tick(old(world)).inbox == [m] + world.inbox && world == Pop(Tick(old(world)))
      ensures s != Ok ==>
                KernelSide([]) && world == Tick(old(world)) && world.inbox == [] && s == ReceiveError(old(world))
      ensures s == Ok || s == EAgain || s == ETimedOut || s.Errno?
      ensures world.accepted == old(world.accepted) && old(world.now) <= world.now
      ensures world.script == Tick(old(world)).script
      ensures Evolved(old(world), world)
    {
      hide Course, EndOfTime, AllArrivals, Honest;
      m := BLANK;
      s := ReceiveError(world);
      TickIsLater(world);
      Regroup(Messages(ledger), m, world.inbox);
      TickBalances(world, Messages(ledger));
      world := Tick(world);
      Regroup(Messages(ledger), m, world.inbox);
      if world.inbox == [] {
        return;
      }
      PopKeeps(world);
      m := world.inbox[0];
      if m.sequence == 0 || !Sendable(m) {
        return EProto, m;
      }
      world := Pop(world);
      s := Ok;
    }

    /** Enters the message in hand into the ledger. */
    ghost method Enter(m: Slot, fate: Fate)
      requires KernelSide([m])
      modifies this`ledger
      ensures KernelSide([]) && ledger == old(ledger) + [Entry(m, fate)]
      ensures Kepts(ledger) == if fate == Kept then Kepts(old(ledger)) + [m] else Kepts(old(ledger))
      ensures Losses(ledger) == Losses(old(ledger)) + if fate == Lost then 1 else 0
      ensures Claims(ledger) == Claims(old(ledger)) + if fate == Claimed then 1 else 0
    {
      Append(ledger, Entry(m, fate));
      Regroup(Messages(ledger), m, world.inbox);
      ledger := ledger + [Entry(m, fate)];
    }

    /** A caller's buffer: large enough, and not part of the handle. */
    ghost predicate Buffer(response: array<bv8>, capacity: u16) {
      capacity <= response.Length && response as object != pending
    }

    /** copy_message into the caller's buffer. */
    method CopyMessage(m: Slot, response: array<bv8>, capacity: u16) returns (s: Status, length: u16, sequence: u32)
      requires Sendable(m) && capacity <= response.Length
      modifies response
      ensures Received(m, capacity, s, length, sequence, old(response[..]), response[..])
      ensures s == Ok || s == EMsgSize
    {
      length, sequence := m.length, m.sequence;
      if m.length > capacity {
        return EMsgSize, length, sequence;
      }
      forall i | 0 <= i < m.length {
        response[i] := m.payload[i];
      }
      s := Ok;
    }

    /** The responses no caller has seen, oldest first, once the world has moved. */
    ghost function Waiting(): seq<Slot>
      requires Valid()
      reads this`pendingCount, this`world, pending
    {
      Retained() + Tick(world).inbox
    }

    /** A receive that finds a retained response; one that does not fit stays. */
    method ReceiveRetained(response: array<bv8>, capacity: u16) returns (s: Status, length: u16, sequence: u32)
      requires Accounted() && pendingCount > 0 && Buffer(response, capacity)
      modifies this`pendingCount, this`eventCount, this`delivered, pending, response
      ensures Accounted()
      ensures Received(old(Retained())[0], capacity, s, length, sequence, old(response[..]), response[..])
      ensures delivered == if s == Ok then old(delivered) + [old(Retained())[0]] else old(delivered)
      ensures Retained() == if s == Ok then old(Retained())[1..] else old(Retained())
    {
      hide Course, EndOfTime, AllArrivals, Honest, Kepts, Messages, Received, Tame, Losses, Claims, KernelSide;
      ghost var was := Retained();
      var message := pending[0];
      assert was == [message] + was[1..];
      TameParts(was, message, was[1..]);
      s, length, sequence := CopyMessage(message, response, capacity);
      if s != EMsgSize {
        var removed := RemovePending(0);
        assert Retained() == was[1..];
        Regroup(delivered, message, Retained());
        delivered := delivered + [message];
        if removed != Ok {
          s := removed;
        }
      }
    }

    /** A receive that asks the kernel; a response that does not fit is retained. */
    method ReceiveFresh(response: array<bv8>, capacity: u16) returns (s: Status, length: u16, sequence: u32)
      requires Accounted() && pendingCount == 0 && Buffer(response, capacity)
      modifies this`pendingCount, this`eventCount, this`world, this`ledger, this`delivered, pending, response
      ensures Accounted()
      ensures Tick(old(world)).inbox != [] ==>
                && Received(Tick(old(world)).inbox[0], capacity, s, length, sequence, old(response[..]), response[..])
                && delivered == (if s == Ok then old(delivered) + [Tick(old(world)).inbox[0]] else old(delivered))
                && Retained() == (if s == Ok then [] else [Tick(old(world)).inbox[0]])
                && world == Pop(Tick(old(world)))
      ensures Tick(old(world)).inbox == [] ==>
                && (s == EAgain || s == ETimedOut || s.Errno?) && s == ReceiveError(old(world))
                && delivered == old(delivered) && pendingCount == 0 && world == Tick(old(world))
                && response[..] == old(response[..])
      ensures old(ledger) <= ledger && Losses(ledger) == Losses(old(ledger)) && Claims(ledger) == Claims(old(ledger))
      ensures world.accepted == old(world.accepted) && old(world.now) <= world.now
      ensures world.script == Tick(old(world)).script
      ensures Evolved(old(world), world)
    {
      hide Course, EndOfTime, AllArrivals, Honest, HonestResponse, Kepts, Messages, Received, Tame, Tick;
      length, sequence := 0, 0;
      var message;
      s, message := ReceiveFromKernel();
      if s != Ok {
        return;
      }
      s, length, sequence := OfferFresh(message, response, capacity);
    }

    /** The message in hand goes to the caller, or is retained if it does not fit. */
    method OfferFresh(message: Slot, response: array<bv8>, capacity: u16) returns (s: Status, length: u16,
        sequence: u32)
      requires Steady() && UserSide() && KernelSide([message]) && pendingCount == 0
      requires HonestResponse(message) && Sendable(message) && Buffer(response, capacity)
      modifies this`pendingCount, this`eventCount, this`ledger, this`delivered, pending, response
      ensures Accounted()
      ensures Received(message, capacity, s, length, sequence, old(response[..]), response[..])
      ensures delivered == if s == Ok then old(delivered) + [message] else old(delivered)
      ensures Retained() == if s == Ok then [] else [message]
      ensures old(ledger) <= ledger && Losses(ledger) == Losses(old(ledger)) && Claims(ledger) == Claims(old(ledger))
    {
      hide Course, EndOfTime, AllArrivals, Honest, HonestResponse, Kepts, Messages, Received, Tame, Losses, Claims;
      assert Retained() == [];
      s, length, sequence := CopyMessage(message, response, capacity);
      if s == EMsgSize {
        var retained := Retain(message);
        if retained != Ok {
          s := retained;
        }
      } else {
        Enter(message, Kept);
        assert (delivered + []) + [message] == (delivered + [message]) + [];
        delivered := delivered + [message];
      }
    }

    /** One attempt to receive under the receive lock: the oldest response that
        no receiver has seen is delivered, or reported and kept if it does not
        fit, or there is none. */
    method ReceiveLocked(response: array<bv8>, capacity: u16) returns (s: Status, length: u16, sequence: u32)
      requires Accounted() && Buffer(response, capacity)
      modifies this`pendingCount, this`eventCount, this`world, this`ledger, this`delivered, pending, response
      ensures Accounted()
      ensures s == Ok ==>
                && |delivered| == |old(delivered)| + 1 && old(delivered) <= delivered
                && Received(delivered[|old(delivered)|], capacity, s, length, sequence, old(response[..]), response[..])
      ensures s == EMsgSize ==>
                && delivered == old(delivered) && Retained() != []
                && Received(Retained()[0], capacity, s, length, sequence, old(response[..]), response[..])
      ensures old(pendingCount) > 0 ==>
                && world == old(world)
                && Received(old(Retained())[0], capacity, s, length, sequence, old(response[..]), response[..])
                && Retained() == if s == Ok then old(Retained())[1..] else old(Retained())
      ensures old(pendingCount) == 0 && Tick(old(world)).inbox != [] ==>
                && world == Pop(Tick(old(world)))
                && Received(Tick(old(world)).inbox[0], capacity, s, length, sequence, old(response[..]), response[..])
                && Retained() == if s == Ok then [] else [Tick(old(world)).inbox[0]]
      ensures old(pendingCount) == 0 && Tick(old(world)).inbox == [] ==> s == ReceiveError(old(world))
      ensures s != Ok && s != EMsgSize ==>
                && (s == EAgain || s == ETimedOut || s.Errno?) && s == ReceiveError(old(world))
                && delivered == old(delivered) && response[..] == old(response[..])
                && pendingCount == 0 && world == Tick(old(world)) && world.inbox == []
      ensures old(ledger) <= ledger && Losses(ledger) == Losses(old(ledger)) && Claims(ledger) == Claims(old(ledger))
      ensures world.accepted == old(world.accepted) && old(world.now) <= world.now
      ensures Evolved(old(world), world)
    {
      hide Course, EndOfTime, AllArrivals, Honest, Kepts, Messages, Tame;
      if pendingCount > 0 {
        s, length, sequence := ReceiveRetained(response, capacity);
      } else {
        s, length, sequence := ReceiveFresh(response, capacity);
      }
    }

    /** sg2002_rtos_message_receive: the oldest response, including a retained
        one, in kernel order. A response that does not fit stays the oldest. */
    method MessageReceive(response: array<bv8>, capacity: u16, timeout: u32)
      returns (s: Status, length: u16, sequence: u32)
      requires Accounted() && Buffer(response, capacity)
      modifies this`pendingCount, this`eventCount, this`world, this`ledger, this`delivered, pending, response
      ensures Accounted()
      ensures s == Ok || s == EMsgSize || s == EAgain || s == ETimedOut || s == Blocked || s.Errno?
      ensures s == Ok ==>
                && |delivered| == |old(delivered)| + 1 && old(delivered) <= delivered
                && Received(delivered[|old(delivered)|], capacity, s, length, sequence, old(response[..]), response[..])
      ensures s == EMsgSize ==>
                && Retained() != []
                && Received(Retained()[0], capacity, s, length, sequence, old(response[..]), response[..])
      ensures s != Ok ==> delivered == old(delivered) && response[..] == old(response[..])
      ensures old(ledger) <= ledger && Losses(ledger) == Losses(old(ledger)) && Claims(ledger) == Claims(old(ledger))
      ensures s == EAgain ==> timeout == 0
      ensures s == ETimedOut ==> timeout != U32_MAX && world.now >= old(world.now) + timeout
      ensures s == Blocked ==> world.script == [] && pendingCount == 0 && world.inbox == []
      ensures old(pendingCount) > 0 ==>
                && world == Begun(old(world), timeout)
                && Received(old(Retained())[0], capacity, s, length, sequence, old(response[..]), response[..])
                && Retained() == if s == Ok then old(Retained())[1..] else old(Retained())
      ensures old(pendingCount) == 0 && Tick(Begun(old(world), timeout)).inbox != [] ==>
                var arrived := Tick(Begun(old(world), timeout));
                && world == Pop(arrived)
                && Received(arrived.inbox[0], capacity, s, length, sequence, old(response[..]), response[..])
      ensures old(pendingCount) == 0 && FailsForGood(Begun(old(world), timeout)) ==>
                Refuse(s) == Begun(old(world), timeout).script[0].answer
      ensures s.Errno? ==> Refused(world, s) && |old(world.past)| < |world.past|
      ensures s == EAgain ==> pendingCount == 0 && world.inbox == []
      ensures s == ETimedOut ==> pendingCount == 0 && NothingMissed(world)
      ensures Evolved(old(world), world)
    {
      hide Course, EndOfTime, AllArrivals, Honest, Kepts, Messages, Tame, Tick, Begun, Losses, Claims;
      hide NothingMissed, Refused, ReceiveError, Accounted, Later;
      AccountedMeans();
      ghost var start := world.now;
      var deadline := TimeoutDeadline(timeout);
      AccountedLater();
      ghost var begun, first := world, true;
      while true
        invariant Evolved(old(world), world)
        invariant Accounted() && Valid() && Armed(start, timeout, deadline)
        invariant delivered == old(delivered) && response[..] == old(response[..])
        invariant old(ledger) <= ledger
        invariant Losses(ledger) == Losses(old(ledger)) && Claims(ledger) == Claims(old(ledger))
        invariant begun == Begun(old(world), timeout)
        invariant first ==> world == begun && pendingCount == old(pendingCount) && Retained() == old(Retained())
        invariant !first ==> old(pendingCount) == 0 && Tick(begun).inbox == [] && !FailsForGood(begun)
        decreases |world.script|
      {
        TickIsShorter(world);
        s, length, sequence := ReceiveLocked(response, capacity);
        if s != EAgain && s != ETimedOut {
          return;
        }
        first := false;
        label tried:
        AccountedMeans();
        s := WaitForEvents(true, false, timeout, deadline, start);
        AccountedLater@tried();
        if s != Ok {
          return;
        }
      }
    }

    lemma KernelSideLater(before: World)
      requires Honest(world) && Later(before, world)
      requires before.arrived == Messages(ledger) + ([] + before.inbox)
      ensures KernelSide([])
    {
      hide Messages, Honest;
      assert [] + before.inbox == before.inbox && [] + world.inbox == world.inbox;
      LaterBalances(before, world, Messages(ledger));
    }

    lemma AccountedMeans()
      requires Accounted()
      ensures Valid() && Honest(world) && eventCount == pendingCount
    {
    }

    /** Waiting does not disturb the account. */
    twostate lemma AccountedLater()
      requires old(Accounted()) && Honest(world) && Later(old(world), world)
      requires unchanged(`pendingCount, `eventCount, `ledger, `delivered) && unchanged(pending)
      ensures Accounted()
    {
      KernelSideLater(old(world));
    }

    // -------------------------------------------------------------- reaping

    /** The messages of a batch buffer have been handed to the caller. */
    twostate predicate Reaped(messages: array<Slot>, completed: nat)
      requires completed <= messages.Length
      reads this`delivered, messages
    {
      delivered == old(delivered) + messages[..completed]
    }

    /** Takes every retained response that fits the batch. */
    method ReapRetained(messages: array<Slot>, count: nat) returns (s: Status, index: nat)
      requires Accounted() && messages != pending && count <= messages.Length
      modifies this`pendingCount, this`eventCount, this`delivered, pending, messages
      ensures Accounted() && s == Ok && index <= count && Reaped(messages, index)
      ensures index == Least(count, old(pendingCount)) && pendingCount == old(pendingCount) - index
      ensures index == 0 ==> Retained() == old(Retained())
    {
      hide Course, EndOfTime, AllArrivals, Honest, HonestResponse, Kepts, Messages, Losses;
      index, s := 0, Ok;
      assert messages[..0] == [] && delivered + [] == delivered;
      while index < count
        invariant Accounted() && s == Ok && index <= count && Reaped(messages, index)
        invariant index == 0 ==> Retained() == old(Retained())
        invariant pendingCount == old(pendingCount) - index
      {
        ghost var was, before := Retained(), delivered;
        var found, m;
        s, found, m := TakePendingOldest();
        if s != Ok {
          return;
        }
        if !found {
          break;
        }
        TameParts(was, m, Retained());
        Regroup(delivered, m, Retained());
        delivered := delivered + [m];
        messages[index] := m;
        assert messages[..index + 1] == messages[..index] + [m];
        index := index + 1;
      }
    }

    /** The oldest kernel response goes to the caller. */
    method TakeArrival() returns (m: Slot)
      requires Accounted() && pendingCount == 0 && world.inbox != []
      modifies this`world, this`ledger, this`delivered
      ensures Accounted() && m == old(world.inbox)[0] && world == Pop(old(world)) && HonestResponse(m)
      ensures delivered == old(delivered) + [m]
      ensures old(ledger) <= ledger && Losses(ledger) == Losses(old(ledger)) && Claims(ledger) == Claims(old(ledger))
      ensures Evolved(old(world), world)
    {
      hide Course, EndOfTime, AllArrivals, Honest, HonestResponse, Kepts, Messages, Tame, Losses;
      assert Retained() == [];
      assert Kepts(ledger) == delivered;
      PopKeeps(world);
      m := world.inbox[0];
      Regroup(Messages(ledger), m, Pop(world).inbox);
      assert [] + world.inbox == world.inbox;
      world := Pop(world);
      Enter(m, Kept);
      delivered := delivered + [m];
      assert delivered + Retained() == delivered;
    }

    /** The world moves while the library waits for an ioctl. */
    method Proceed()
      requires KernelSide([])
      modifies this`world
      ensures KernelSide([]) && world == Tick(old(world))
      ensures world.accepted == old(world.accepted) && old(world.now) <= world.now
      ensures Evolved(old(world), world)
    {
      hide Course, EndOfTime, AllArrivals, Honest;
      TickIsLater(world);
      Regroup(Messages(ledger), BLANK, world.inbox);
      TickBalances(world, Messages(ledger));
      Regroup(Messages(ledger), BLANK, Tick(world).inbox);
      world := Tick(world);
    }

    /** The batch ioctl hands over every response it has room for. */
    method ReapNative(messages: array<Slot>, count: nat) returns (s: Status, completed: nat)
      requires Accounted() && pendingCount == 0 && messages != pending && 0 < count <= messages.Length
      modifies this`world, this`ledger, this`delivered, messages
      ensures Accounted() && completed <= count && Reaped(messages, completed)
      ensures s == Ok || s == EAgain || s == ETimedOut || s == ENoTty || s.Errno?
      ensures s == Ok <==> completed > 0
      ensures s == EAgain || s == ETimedOut ==> world.inbox == []
      ensures old(ledger) <= ledger && Losses(ledger) == Losses(old(ledger)) && Claims(ledger) == Claims(old(ledger))
      ensures world.accepted == old(world.accepted) && old(world.now) <= world.now
      ensures world.script == Tick(old(world)).script
      ensures s == ENoTty <==> NoIoctl(old(world))
      ensures s == ENoTty ==> world == Tick(old(world))
      ensures s != ENoTty && Tick(old(world)).inbox == [] ==>
                completed == 0 && s == ReceiveError(old(world)) && world == Tick(old(world))
      ensures s != ENoTty && Tick(old(world)).inbox != [] ==> completed == Least(count, |Tick(old(world)).inbox|)
      ensures Evolved(old(world), world)
    {
      hide Course, EndOfTime, AllArrivals, Honest, HonestResponse, Kepts, Messages, Tame, Losses, Claims, Later;
      assert messages[..0] == [] && delivered + [] == delivered;
      completed := 0;
      var refused := world.script != [] && world.script[0].answer == Refuse(ENoTty);
      s := ReceiveError(world);
      Proceed();
      if refused {
        return ENoTty, 0;
      }
      if world.inbox == [] {
        return;
      }
      while completed < count && world.inbox != []
        invariant Evolved(old(world), world)
        invariant Accounted() && pendingCount == 0 && completed <= count && Reaped(messages, completed)
        invariant completed + |world.inbox| == |Tick(old(world)).inbox| > 0
        invariant old(ledger) <= ledger
        invariant Losses(ledger) == Losses(old(ledger)) && Claims(ledger) == Claims(old(ledger))
        invariant world.accepted == old(world.accepted) && old(world.now) <= world.now
        invariant world.script == Tick(old(world)).script
        decreases count - completed
      {
        var m := TakeArrival();
        messages[completed] := m;
        assert messages[..completed + 1] == messages[..completed] + [m];
        completed := completed + 1;
      }
      s := Ok;
    }

    /** The fallback for older kernels: one ioctl for each response. */
    method ReapSingly(messages: array<Slot>, count: nat) returns (s: Status, completed: nat, ghost last: World)
      requires Accounted() && pendingCount == 0 && messages != pending && 0 < count <= messages.Length
      modifies this`world, this`ledger, this`delivered, messages
      ensures Accounted() && completed <= count && Reaped(messages, completed)
      ensures s == Ok || s == EAgain || s == ETimedOut || s.Errno?
      ensures s == Ok ==> completed > 0
      ensures s == EAgain || s == ETimedOut ==> completed == 0 && world.inbox == []
      ensures old(ledger) <= ledger && Losses(ledger) == Losses(old(ledger)) && Claims(ledger) == Claims(old(ledger))
      ensures world.accepted == old(world.accepted) && old(world.now) <= world.now
      ensures |world.script| <= |Tick(old(world)).script|
      ensures completed >= Least(count, |Tick(old(world)).inbox|)
      ensures completed == count ==> s == Ok
      ensures completed < count ==>
                && world == Tick(last) && world.inbox == []
                && s == if completed > 0 && Retried(ReceiveError(last)) then Ok else ReceiveError(last)
      ensures completed == 0 <==> Tick(old(world)).inbox == []
      ensures completed == 0 ==> last == old(world)
      ensures s.Errno? ==> Refused(world, s) && |old(world.past)| < |world.past|
      ensures Evolved(old(world), world)
    {
      hide Course, EndOfTime, AllArrivals, Honest, HonestResponse, Kepts, Messages, Tame, Accounted, Losses, Tick,
          Steady, UserSide, KernelSide;
      assert messages[..0] == [] && delivered + [] == delivered;
      completed, last := 0, world;
      while completed < count
        invariant Evolved(old(world), world)
        invariant Accounted() && pendingCount == 0 && completed <= count && Reaped(messages, completed)
        invariant old(ledger) <= ledger
        invariant Losses(ledger) == Losses(old(ledger)) && Claims(ledger) == Claims(old(ledger))
        invariant world.accepted == old(world.accepted) && old(world.now) <= world.now
        invariant completed == 0 ==> world == old(world)
        invariant completed > 0 ==> |world.script| <= |Tick(old(world)).script|
        invariant completed > 0 ==> completed + |world.inbox| >= |Tick(old(world)).inbox|
        invariant completed > 0 ==> Tick(old(world)).inbox != []
        invariant completed == 0 ==> last == old(world)
      {
        var m;
        TickIsShorter(world);
        TickAdds(world);
        last := world;
        s, m := ReceiveSingle();
        if s != Ok {
          if completed > 0 && (s == EAgain || s == ETimedOut) {
            break;
          }
          return;
        }
        messages[completed] := m;
        assert messages[..completed + 1] == messages[..completed] + [m];
        completed := completed + 1;
      }
      s := Ok;
    }

    method ReceiveSingle() returns (s: Status, m: Slot)
      requires Accounted() && pendingCount == 0
      modifies this`world, this`ledger, this`delivered
      ensures Accounted()
      ensures s == Ok || s == EAgain || s == ETimedOut || s.Errno?
      ensures delivered == if s == Ok then old(delivered) + [m] else old(delivered)
      ensures s != Ok ==> world.inbox == [] && ledger == old(ledger)
      ensures old(ledger) <= ledger && Losses(ledger) == Losses(old(ledger)) && Claims(ledger) == Claims(old(ledger))
      ensures world.accepted == old(world.accepted) && old(world.now) <= world.now
      ensures world.script == Tick(old(world)).script
      ensures Tick(old(world)).inbox != [] ==>
                s == Ok && m == Tick(old(world)).inbox[0] && world == Pop(Tick(old(world)))
      ensures Tick(old(world)).inbox == [] ==>
                s != Ok && s == ReceiveError(old(world)) && world == Tick(old(world))
      ensures Evolved(old(world), world)
    {
      hide Course, EndOfTime, AllArrivals, Honest, HonestResponse, Kepts, Messages, Tame, Losses, Tick;
      assert Retained() == [];
      assert Kepts(ledger) == delivered;
      s, m := ReceiveFromKernel();
      if s == Ok {
        Enter(m, Kept);
        delivered := delivered + [m];
        assert delivered + Retained() == delivered;
      }
    }

    /** The kernel's part of reap_batch_locked. */
    method ReapKernel(messages: array<Slot>, count: nat) returns (s: Status, completed: nat)
      requires Accounted() && messages != pending && 0 < count <= messages.Length && pendingCount == 0
      modifies this`world, this`ledger, this`delivered, this`reapBatch, messages
      ensures Accounted() && completed <= count && Reaped(messages, completed)
      ensures s == Ok || s == EAgain || s == ETimedOut || s.Errno?
      ensures s == Ok ==> completed > 0
      ensures s == EAgain || s == ETimedOut ==> completed == 0 && world.inbox == []
      ensures old(ledger) <= ledger && Losses(ledger) == Losses(old(ledger)) && Claims(ledger) == Claims(old(ledger))
      ensures world.accepted == old(world.accepted) && old(world.now) <= world.now
      ensures s != Ok ==> |world.script| <= |Tick(old(world)).script|
      ensures reapBatch == if old(reapBatch) == Unsupported || NoIoctl(old(world)) then Unsupported else Supported
      ensures FirstReap(old(world), old(reapBatch), count, s, completed)
      ensures Tick(Asked(old(world), old(reapBatch))).inbox == [] ==>
                world == Tick(Asked(old(world), old(reapBatch)))
      ensures completed == count ==> s == Ok
      ensures s.Errno? ==> Refused(world, s) && |old(world.past)| < |world.past|
      ensures Evolved(old(world), world)
    {
      hide Course, EndOfTime, AllArrivals, Honest, HonestResponse, Kepts, Messages, Tame, Losses, Tick, Steady,
          UserSide, KernelSide, Accounted;
      if reapBatch != Unsupported {
        s, completed := ReapNative(messages, count);
        if s != ENoTty {
          reapBatch := Supported;
          return;
        }
        reapBatch := Unsupported;
        TickIsShorter(world);
      }
      ghost var last;
      s, completed, last := ReapSingly(messages, count);
    }

    /** reap_batch_locked: retained responses if there are any, else whatever
        the kernel has, by the batch ioctl or one at a time. */
    method ReapBatchLocked(messages: array<Slot>, count: nat) returns (s: Status, completed: nat)
      requires Accounted() && messages != pending && 0 < count <= messages.Length
      modifies this`pendingCount, this`eventCount, this`world, this`ledger, this`delivered, this`reapBatch, pending,
          messages
      ensures Accounted() && completed <= count && Reaped(messages, completed)
      ensures s == Ok || s == EAgain || s == ETimedOut || s.Errno?
      ensures s == Ok ==> completed > 0
      ensures s == EAgain || s == ETimedOut ==> completed == 0 && pendingCount == 0 && world.inbox == []
      ensures old(ledger) <= ledger && Losses(ledger) == Losses(old(ledger)) && Claims(ledger) == Claims(old(ledger))
      ensures world.accepted == old(world.accepted) && old(world.now) <= world.now
      ensures s != Ok ==> |world.script| <= |Tick(old(world)).script|
      ensures old(pendingCount) > 0 ==>
                s == Ok && completed == Least(count, old(pendingCount)) && world == old(world)
      ensures old(pendingCount) == 0 ==>
                && FirstReap(old(world), old(reapBatch), count, s, completed)
                && reapBatch == if old(reapBatch) == Unsupported || NoIoctl(old(world)) then Unsupported else Supported
      ensures old(pendingCount) == 0 && Tick(Asked(old(world), old(reapBatch))).inbox == [] ==>
                world == Tick(Asked(old(world), old(reapBatch)))
      ensures completed == count ==> s == Ok
      ensures s.Errno? ==> Refused(world, s) && |old(world.past)| < |world.past|
      ensures Evolved(old(world), world)
    {
      hide Course, EndOfTime, AllArrivals, Honest, HonestResponse, Kepts, Messages, Tame, Losses, Tick, Steady,
          UserSide, KernelSide, Accounted;
      var index;
      s, index := ReapRetained(messages, count);
      completed := index;
      if s != Ok || index > 0 {
        return;
      }
      assert delivered + [] == delivered && messages[..0] == [];
      s, completed := ReapKernel(messages, count);
    }

    /** sg2002_rtos_message_reap_batch: a nonempty run of responses in kernel
        order, retained ones first. */
    method MessageReapBatch(messages: array<Slot>, count: nat, timeout: u32) returns (s: Status, completed: nat)
      requires Accounted() && messages != pending && count <= messages.Length
      modifies this`pendingCount, this`eventCount, this`world, this`ledger, this`delivered, this`reapBatch, pending,
          messages
      ensures Accounted() && completed <= count && Reaped(messages, completed)
      ensures s == EInval <==> count == 0 || count > SLOT_COUNT
      ensures s == Ok ==> completed > 0
      ensures s == Ok || s == EInval || s == EAgain || s == ETimedOut || s == Blocked || s.Errno?
      ensures old(ledger) <= ledger && Losses(ledger) == Losses(old(ledger)) && Claims(ledger) == Claims(old(ledger))
      ensures s == EAgain ==> timeout == 0
      ensures s == ETimedOut ==> timeout != U32_MAX && world.now >= old(world.now) + timeout
      ensures s == Blocked ==> world.script == [] && pendingCount == 0 && world.inbox == []
      ensures s != EInval && old(pendingCount) > 0 ==>
                s == Ok && completed == Least(count, old(pendingCount)) && world == Begun(old(world), timeout)
      ensures s != EInval && old(pendingCount) == 0 && Answers(Begun(old(world), timeout), old(reapBatch)) ==>
                && FirstReap(Begun(old(world), timeout), old(reapBatch), count, s, completed)
                && (old(reapBatch) == Unsupported || NoIoctl(Begun(old(world), timeout)) <==> reapBatch == Unsupported)
      ensures completed == count > 0 ==> s == Ok
      ensures s.Errno? ==> Refused(world, s) && |old(world.past)| < |world.past|
      ensures s == EAgain ==> pendingCount == 0 && world.inbox == []
      ensures s == ETimedOut ==> pendingCount == 0 && NothingMissed(world)
      ensures Evolved(old(world), world)
    {
      hide Course, EndOfTime, AllArrivals, Honest, Kepts, Messages, Tame, Tick, Begun, Losses, Claims;
      hide NothingMissed, Refused, ReceiveError, Accounted, Later, FirstReap, Answers;
      assert delivered + [] == delivered && messages[..0] == [];
      completed := 0;
      AccountedMeans();
      ghost var start := world.now;
      var deadline := TimeoutDeadline(timeout);
      AccountedLater();
      ghost var begun, first := world, true;
      if count == 0 || count > SLOT_COUNT {
        return EInval, 0;
      }
      while true
        invariant Evolved(old(world), world)
        invariant Accounted() && Valid() && Armed(start, timeout, deadline)
        invariant delivered == old(delivered) && completed == 0
        invariant old(ledger) <= ledger
        invariant Losses(ledger) == Losses(old(ledger)) && Claims(ledger) == Claims(old(ledger))
        invariant begun == Begun(old(world), timeout)
        invariant first ==> world == begun && pendingCount == old(pendingCount) && reapBatch == old(reapBatch)
        invariant !first ==> old(pendingCount) == 0 && !Answers(begun, old(reapBatch))
        decreases |world.script|
      {
        ghost var before := delivered;
        ghost var asked, support := world, reapBatch;
        TickIsShorter(world);
        s, completed := ReapBatchLocked(messages, count);
        if s != EAgain && s != ETimedOut {
          return;
        }
        NothingAnswers(asked, support, count, s, completed);
        first := false;
        assert before + messages[..0] == before;
        label tried:
        AccountedMeans();
        s := WaitForEvents(true, false, timeout, deadline, start);
        AccountedLater@tried();
        if s != Ok {
          return;
        }
      }
    }

    // -------------------------------------------------------------- sending

    /** message_send_locked: the driver takes the request under a fresh nonzero
        sequence, or refuses it. */
    method SendLocked(payload: seq<bv8>, length: u16) returns (s: Status, sequence: u32)
      requires KernelSide([]) && length <= |payload|
      modifies this`world
      ensures KernelSide([])
      ensures s == EInval <==> length > PAYLOAD_SIZE
      ensures s == Blocked <==> length <= PAYLOAD_SIZE && old(world.script) == []
      ensures s == Ok || s == EInval || s == Blocked || s == EAgain || s == ETimedOut || s == ENoTty || s.Errno?
      ensures s == Ok ==>
                && sequence != 0 && length <= PAYLOAD_SIZE
                && world.accepted == old(world.accepted) +
                     [Taken(RawSlot(sequence, length, Padded(payload[..length])), |ledger|)]
      ensures s != Ok ==> world.accepted == old(world.accepted)
      ensures old(world.now) <= world.now && |world.script| <= |old(world.script)|
      ensures s != EInval && s != Blocked ==> |world.script| < |old(world.script)|
      ensures length <= PAYLOAD_SIZE && old(world.script) != [] ==>
                && Sent(old(world.script)[0].answer, s, sequence)
                && world.script == old(world.script)[1..] && world.past == old(world.past) + [old(world.script)[0]]
      ensures s != Ok ==> world == if length > PAYLOAD_SIZE then old(world) else Tick(old(world))
      ensures s.Errno? || s == ENoTty ==> Refused(world, s)
      ensures Evolved(old(world), world)
    {
      hide Course, EndOfTime, AllArrivals, Messages, Later;
      sequence := 0;
      if length > PAYLOAD_SIZE {
        return EInval, 0;
      }
      if world.script == [] {
        return Blocked, 0;
      }
      var answer := world.script[0].answer;
      assert HonestMove(world.script[0]);
      Proceed();
      match answer {
        case Refuse(e) =>
          return e, 0;
        case Accept(sequences) =>
          sequence := sequences[0];
          AcceptOne(world, RawSlot(sequence, length, Padded(payload[..length])));
          world := AcceptAll(world, [RawSlot(sequence, length, Padded(payload[..length]))]);
          s := if sequence == 0 then EProto else Ok;
      }
    }

    /** sg2002_rtos_message_send: the request is accepted once or not at all. */
    method MessageSend(payload: seq<bv8>, length: u16, timeout: u32)
      returns (s: Status, sequence: u32, ghost last: World)
      requires KernelSide([]) && length <= |payload|
      modifies this`world
      ensures KernelSide([])
      ensures s == EInval <==> length > PAYLOAD_SIZE
      ensures s == Ok ==>
                && sequence != 0 && length <= PAYLOAD_SIZE
                && world.accepted == old(world.accepted) +
                     [Taken(RawSlot(sequence, length, Padded(payload[..length])), |ledger|)]
      ensures s != Ok ==> world.accepted == old(world.accepted)
      ensures s == EAgain ==> timeout == 0
      ensures s == ETimedOut ==> timeout != U32_MAX && world.now >= old(world.now) + timeout
      ensures s == Blocked ==> world.script == []
      ensures s != EProto
      ensures Evolved(old(world), last) && Evolved(last, world)
      ensures length <= PAYLOAD_SIZE && Begun(old(world), timeout).script != [] ==>
                var answer := Begun(old(world), timeout).script[0].answer;
                Retriable(answer) || (last == Begun(old(world), timeout) && Sent(answer, s, sequence))
      ensures length <= PAYLOAD_SIZE && last.script != [] ==>
                var answer := last.script[0].answer;
                if Retriable(answer) then s == EAgain || s == ETimedOut || s == Blocked else Sent(answer, s, sequence)
      ensures s == EAgain ==> last.script != [] && world == Tick(last)
      ensures s == ETimedOut ==> last.script != [] && NoRoomSince(|last.past| + 2, world)
      ensures Evolved(old(world), world)
    {
      hide Course, EndOfTime, AllArrivals, Honest, Messages, Begun, NoRoomSince;
      ghost var start := world.now;
      var deadline := TimeoutDeadline(timeout);
      KernelSideLater(old(world));
      last := world;
      ghost var begun, first := world, true;
      while true
        invariant Evolved(old(world), world)
        invariant KernelSide([]) && Armed(start, timeout, deadline) && world.accepted == old(world.accepted)
        invariant begun == Begun(old(world), timeout)
        invariant first ==> world == begun
        invariant !first ==> begun.script != [] && Retriable(begun.script[0].answer)
        decreases |world.script|
      {
        last := world;
        s, sequence := SendLocked(payload, length);
        if s != EAgain && s != ETimedOut {
          return;
        }
        first := false;
        ghost var mark := world;
        s := WaitForEvents(false, true, timeout, deadline, start);
        KernelSideLater(mark);
        if s != Ok {
          return;
        }
      }
    }

    // -------------------------------------------------------------- batch submission

    lemma KernelIsHonest()
      requires KernelSide([])
      ensures Honest(world)
    {
    }

    twostate lemma KernelWaits()
      requires old(KernelSide([])) && unchanged(`ledger) && Honest(world) && Later(old(world), world)
      ensures KernelSide([])
    {
      KernelSideLater(old(world));
    }

    /** The driver, which had taken `accepted`, has since taken exactly the first
        `completed` requests of the batch, in order, and each slot of that prefix
        carries its sequence. */
    ghost predicate Submitted(accepted: seq<Taken>, messages: array<Slot>, completed: nat)
      requires completed <= messages.Length
      reads this`world, messages
    {
      && accepted <= world.accepted
      && AcceptedAs(world.accepted[|accepted|..], messages[..completed])
      && (forall i :: 0 <= i < completed ==> messages[i].sequence != 0)
    }

    /** A batch keeps its requests; only sequences are filled in. */
    ghost predicate Stamped(batch: seq<Slot>, messages: array<Slot>, completed: nat)
      requires completed <= messages.Length
      reads messages
    {
      && |batch| == messages.Length
      && (forall i :: 0 <= i < completed ==>
            messages[i].length == batch[i].length && messages[i].payload == batch[i].payload)
      && (forall i :: completed <= i < messages.Length ==> messages[i] == batch[i])
    }

    lemma NoneSubmitted(accepted: seq<Taken>, batch: seq<Slot>, messages: array<Slot>)
      requires Submitted(accepted, messages, 0) && Stamped(batch, messages, 0)
      ensures world.accepted == accepted && messages[..] == batch
    {
    }

    lemma NothingSubmitted(messages: array<Slot>)
      ensures Submitted(world.accepted, messages, 0) && Stamped(messages[..], messages, 0)
    {
      NoneAccepted();
      assert messages[..0] == [] && world.accepted[|world.accepted|..] == [];
    }

    ghost predicate AllSendable(messages: array<Slot>, count: nat)
      requires count <= messages.Length
      reads messages
    {
      forall i :: 0 <= i < count ==> Sendable(messages[i])
    }

    /** The driver fills in the sequences of what it takes. */
    method FillIn(messages: array<Slot>, sequences: seq<u32>, n: nat)
      requires n <= |sequences| && n <= messages.Length
      modifies messages
      ensures Stamped(old(messages[..]), messages, n)
      ensures forall i :: 0 <= i < n ==> messages[i].sequence == sequences[i]
    {
      forall i | 0 <= i < n {
        messages[i] := messages[i].(sequence := sequences[i]);
      }
    }

    lemma StillSendable(batch: seq<Slot>, messages: array<Slot>, n: nat)
      requires n <= messages.Length && Stamped(batch, messages, n)
      requires forall i :: 0 <= i < n ==> Sendable(batch[i])
      ensures AllSendable(messages, n)
    {
    }

    /** The batch ioctl: the driver takes a nonempty prefix or refuses. */
    method SubmitNative(messages: array<Slot>, count: nat) returns (s: Status, completed: nat)
      requires KernelSide([]) && messages != pending && 0 < count <= messages.Length && AllSendable(messages, count)
      modifies this`world, messages
      ensures KernelSide([])
      ensures completed <= count && Submitted(old(world.accepted), messages, completed)
      ensures Stamped(old(messages[..]), messages, completed)
      ensures s == Blocked <==> old(world.script) == []
      ensures s == Ok || s == Blocked || s == EAgain || s == ETimedOut || s == ENoTty || s.Errno?
      ensures s == Ok <==> completed > 0
      ensures old(world.now) <= world.now && |world.script| <= |old(world.script)|
      ensures s != Blocked ==> |world.script| < |old(world.script)|
      ensures SentAtOnce(old(world).script, count, s, completed, messages[..completed], world.script)
      ensures s != Ok ==> world == Tick(old(world))
      ensures Evolved(old(world), world)
    {
      hide Course, EndOfTime, AllArrivals, Messages, Later, AcceptAll, AcceptedAs, Kepts, Stamped;
      completed := 0;
      NothingSubmitted(messages);
      if world.script == [] {
        return Blocked, 0;
      }
      var answer := world.script[0].answer;
      assert HonestMove(world.script[0]);
      Proceed();
      match answer {
        case Refuse(e) =>
          return e, 0;
        case Accept(sequences) =>
          completed := if |sequences| < count then |sequences| else count;
          FillIn(messages, sequences, completed);
          StillSendable(old(messages[..]), messages, completed);
          AcceptedNow(world, messages[..completed]);
          world := AcceptAll(world, messages[..completed]);
          s := Ok;
      }
    }

    /** The fallback for older kernels: one ioctl for each request, up to the
        first that the driver does not take. */
    method SubmitSingly(messages: array<Slot>, count: nat) returns (s: Status, completed: nat)
      requires KernelSide([]) && messages != pending && 0 < count <= messages.Length && AllSendable(messages, count)
      modifies this`world, messages
      ensures KernelSide([])
      ensures completed <= count && Submitted(old(world.accepted), messages, completed)
      ensures Stamped(old(messages[..]), messages, completed)
      ensures s == Ok ==> completed > 0
      ensures s == EAgain || s == ETimedOut ==> completed == 0 && |world.script| < |old(world.script)|
      ensures s == Ok || s == Blocked || s == EAgain || s == ETimedOut || s == ENoTty || s.Errno?
      ensures s == Blocked ==> world.script == []
      ensures old(world.now) <= world.now && |world.script| <= |old(world.script)|
      ensures SentSingly(old(world).script, count, s, completed, messages[..completed], world.script)
      ensures completed == 0 ==> world == Tick(old(world))
      ensures Evolved(old(world), world)
    {
      hide Course, EndOfTime, AllArrivals, Honest, Messages, Later, Tick, Taking, SentSingly, Sent, KernelSide;
      completed := 0;
      ghost var script := world.script;
      NothingTaken(script);
      assert messages[..0] == [];
      while completed < count
        invariant completed <= count && Taking(script, messages[..completed], world.script)
        invariant completed == 0 ==> world == old(world)
        invariant Evolved(old(world), world)
        invariant KernelSide([])
        invariant completed <= count && Submitted(old(world.accepted), messages, completed)
        invariant Stamped(old(messages[..]), messages, completed)
        invariant AllSendable(messages, count)
        invariant old(world.now) <= world.now && |world.script| <= |old(world.script)|
      {
        var sequence;
        ghost var rest, batch := world.script, messages[..completed];
        s, sequence := SendLocked(messages[completed].payload, messages[completed].length);
        if s != Ok {
          TakesNoMore(script, batch, rest, count, s, sequence);
          if completed > 0 && (s == EAgain || s == ETimedOut) {
            break;
          }
          return;
        }
        messages[completed] := messages[completed].(sequence := sequence);
        TakesOneMore(script, batch, rest, messages[completed]);
        assert messages[..completed + 1] == batch + [messages[completed]];
        completed := completed + 1;
      }
      s := Ok;
      if completed == count {
        TakesAll(script, messages[..completed], world.script);
      }
    }

    /** submit_batch_locked. Native and fallback meet one contract: the count
        reported is the count the driver took, and it took a prefix. */
    method SubmitBatchLocked(messages: array<Slot>, count: nat) returns (s: Status, completed: nat)
      requires KernelSide([]) && messages != pending && 0 < count <= messages.Length && AllSendable(messages, count)
      modifies this`world, this`submitBatch, messages
      ensures KernelSide([])
      ensures completed <= count && Submitted(old(world.accepted), messages, completed)
      ensures Stamped(old(messages[..]), messages, completed)
      ensures s == Ok ==> completed > 0
      ensures s == EAgain || s == ETimedOut ==> completed == 0 && |world.script| < |old(world.script)|
      ensures s == Ok || s == Blocked || s == EAgain || s == ETimedOut || s == ENoTty || s.Errno?
      ensures s == Blocked ==> world.script == []
      ensures old(world.now) <= world.now
      ensures Attempted(old(world), old(submitBatch), count, s, completed, messages[..completed], world.script)
      ensures submitBatch == SupportAfter(old(world), old(submitBatch))
      ensures completed == 0 && old(world).script != [] ==> world == Tick(Asked(old(world), old(submitBatch)))
      ensures Evolved(old(world), world)
    {
      hide Course, EndOfTime, AllArrivals, Honest, Messages, Tick, SentSingly;
      ghost var begun := world;
      TickBrings(world);
      if submitBatch != Unsupported {
        s, completed := SubmitNative(messages, count);
        if s == Blocked {
          return;
        }
        if s != ENoTty {
          submitBatch := Supported;
          return;
        }
        submitBatch := Unsupported;
        assert world.accepted == old(world.accepted);
      }
      s, completed := SubmitSingly(messages, count);
    }

    /** The checks of a batch before any of it is sent. */
    method CheckBatch(messages: array<Slot>, count: nat) returns (s: Status)
      requires count <= messages.Length
      ensures s == Ok || s == EInval || s == EMsgSize
      ensures s == EInval <==> count == 0 || count > SLOT_COUNT
      ensures s == EMsgSize <==> 0 < count <= SLOT_COUNT && !AllSendable(messages, count)
    {
      if count == 0 || count > SLOT_COUNT {
        return EInval;
      }
      for index := 0 to count
        invariant AllSendable(messages, index)
      {
        if !Sendable(messages[index]) {
          return EMsgSize;
        }
      }
      s := Ok;
    }

    /** sg2002_rtos_message_submit_batch: the retry loop goes round only when
        the driver has taken nothing, so no request is submitted twice. */
    method MessageSubmitBatch(messages: array<Slot>, count: nat, timeout: u32)
      returns (s: Status, completed: nat, ghost last: World, ghost support: Support)
      requires KernelSide([]) && messages != pending && count <= messages.Length
      modifies this`world, this`submitBatch, messages
      ensures KernelSide([])
      ensures completed <= count && Submitted(old(world.accepted), messages, completed)
      ensures Stamped(old(messages[..]), messages, completed)
      ensures s == EInval <==> count == 0 || count > SLOT_COUNT
      ensures s == EMsgSize <==> 0 < count <= SLOT_COUNT && !old(AllSendable(messages, count))
      ensures s == Ok ==> completed > 0
      ensures s == EInval || s == EMsgSize || s == EAgain || s == ETimedOut ==> completed == 0
      ensures s == EAgain ==> timeout == 0
      ensures s == ETimedOut ==> timeout != U32_MAX && world.now >= old(world.now) + timeout
      ensures s == Blocked ==> world.script == []
      ensures s != EProto
      ensures s != EInval && s != EMsgSize && !Retries(Begun(old(world), timeout), old(submitBatch)) ==>
                last == Begun(old(world), timeout) && support == old(submitBatch)
      ensures s != EInval && s != EMsgSize ==>
                && submitBatch == SupportAfter(last, support)
                && if Retries(last, support) then s == EAgain || s == ETimedOut || s == Blocked
                   else Attempted(last, support, count, s, completed, messages[..completed], world.script)
      ensures s == EAgain ==> Retries(last, support) && world == Tick(Asked(last, support))
      ensures s == ETimedOut ==>
                Retries(last, support) && NoRoomSince(|Asked(last, support).past| + 2, world)
      ensures Evolved(old(world), last) && Evolved(last, world)
      ensures Evolved(old(world), world)
    {
      hide Course, EndOfTime, AllArrivals, Honest, Messages, Begun, Attempted, Retries, SupportAfter, Asked,
          NoRoomSince, Tick, Later, KernelSide, Evolved, Submitted, Stamped, AcceptedAs;
      completed := 0;
      KernelIsHonest();
      ghost var start := world.now;
      var deadline := TimeoutDeadline(timeout);
      KernelWaits();
      LaterKeeps(old(world), world);
      last, support := world, submitBatch;
      EvolvedOn(world, world, world);
      ghost var begun, first := world, true;
      NothingSubmitted(messages);
      s := CheckBatch(messages, count);
      if s != Ok {
        return;
      }
      while true
        invariant begun == Begun(old(world), timeout) && (first ==> world == begun && submitBatch == old(submitBatch))
        invariant !first ==> Retries(begun, old(submitBatch))
        invariant Evolved(old(world), world)
        invariant KernelSide([]) && Armed(start, timeout, deadline)
        invariant world.accepted == old(world.accepted) && messages[..] == old(messages[..])
        invariant AllSendable(messages, count)
        decreases |world.script|
      {
        last, support := world, submitBatch;
        s, completed := SubmitBatchLocked(messages, count);
        KernelIsHonest();
        EvolvedOn(old(world), last, world);
        AttemptRetries(last, support, count, s, completed, messages[..completed], world.script);
        if s != EAgain && s != ETimedOut {
          return;
        }
        first := false;
        NoneSubmitted(old(world.accepted), old(messages[..]), messages);
        ghost var mark := world;
        label tried:
        s := WaitForEvents(false, true, timeout, deadline, start);
        KernelWaits@tried();
        LaterKeeps(mark, world);
        NothingSubmitted(messages);
        EvolvedOn(old(world), mark, world);
        EvolvedOn(last, mark, world);
        if s != Ok {
          return;
        }
      }
    }

    // -------------------------------------------------------------- synchronous calls

    /** A response that no caller is waiting for: retained for receivers, or,
        when 64 are retained already, dropped. */
    method Retain(m: Slot) returns (s: Status)
      requires Steady() && UserSide() && KernelSide([m]) && HonestResponse(m)
      modifies this`pendingCount, this`eventCount, this`ledger, pending
      ensures Accounted()
      ensures s == Ok || s == ENoBufs
      ensures s == ENoBufs <==> old(pendingCount) == SLOT_COUNT
      ensures ledger == old(ledger) + [Entry(m, if s == Ok then Kept else Lost)]
      ensures Losses(ledger) == Losses(old(ledger)) + (if s == Ok then 0 else 1)
      ensures Claims(ledger) == Claims(old(ledger))
      ensures Retained() == old(Retained()) + if s == Ok then [m] else []
    {
      hide Course, EndOfTime, AllArrivals, Honest, HonestResponse, Kepts, Messages, Tame, Losses, Claims;
      TameAppend(Retained(), m);
      ghost var was := Retained();
      s := RetainPending(m);
      Enter(m, if s == Ok then Kept else Lost);
      assert delivered + (was + [m]) == delivered + was + [m];
    }

    /** No retained response carries this sequence. */
    ghost predicate Unretained(sequence: u32)
      requires Valid()
      reads this`pendingCount, pending
    {
      forall i :: 0 <= i < |Retained()| ==> Retained()[i].sequence != sequence
    }

    /** Takes the oldest retained response with this sequence away from the
        receivers. */
    method ClaimRetained(sequence: u32) returns (s: Status, found: bool, m: Slot, ghost at: nat)
      requires Accounted()
      modifies this`pendingCount, this`eventCount, this`ledger, pending
      ensures Accounted() && s == Ok
      ensures Losses(ledger) == Losses(old(ledger)) && Claims(ledger) == Claims(old(ledger)) + if found then 1 else 0
      ensures found ==>
                && m.sequence == sequence && HonestResponse(m)
                && at < |old(ledger)| && old(ledger)[at] == Entry(m, Kept) &&
                    ledger == old(ledger)[at := Entry(m, Claimed)]
      ensures found <==> !old(Unretained(sequence))
      ensures !found ==> ledger == old(ledger) && Retained() == old(Retained())
      ensures !found ==> Unretained(sequence) && pendingCount == old(pendingCount)
    {
      hide Course, EndOfTime, AllArrivals, Honest, HonestResponse, Kepts, Messages, Losses, Claims, Claim, Tame;
      ghost var was := Retained();
      ghost var index;
      at := 0;
      s, found, m, index := TakePendingSequence(sequence);
      if found {
        at := ClaimFromPending(ledger, delivered, was, index);
        ledger := Claim(ledger, |delivered| + index);
      }
    }

    /** wait_for_kernel_events between two looks at the channel. */
    method CallWait(wantOut: bool, timeout: u32, deadline: nat, ghost start: nat) returns (s: Status)
      requires Accounted() && Armed(start, timeout, deadline)
      modifies this`world
      ensures Accounted() && Armed(start, timeout, deadline) && Evolved(old(world), world)
      ensures s == Ok || s == EAgain || s == ETimedOut || s == Blocked
      ensures s == EAgain <==> timeout == 0
      ensures s == EAgain ==> world == old(world)
      ensures s == ETimedOut ==> timeout != U32_MAX && world.now >= start + timeout
      ensures s == Blocked ==> world.script == [] && world.inbox == []
      ensures s == Ok && old(world.script) == [] ==> wantOut || old(world.inbox) != []
      ensures old(world.now) <= world.now && world.accepted == old(world.accepted)
      ensures |world.script| <= |old(world.script)|
      ensures |world.script| == |old(world.script)| ==> |old(world.inbox)| <= |world.inbox|
    {
      hide Course, EndOfTime, AllArrivals, Honest, Kepts, Messages, Tame, Tick, Later, Armed;
      s := WaitForKernelEvents(true, wantOut, timeout, deadline, start);
      KernelSideLater(old(world));
      LaterKeeps(old(world), world);
    }

    /** The clock is read after every response that is not the awaited one. */
    method CallExpired(timeout: u32, deadline: nat, ghost start: nat) returns (expired: bool)
      requires Accounted() && Armed(start, timeout, deadline)
      modifies this`world
      ensures Accounted() && Armed(start, timeout, deadline) && Evolved(old(world), world)
      ensures expired ==> deadline != 0 && timeout != U32_MAX && world.now >= start + timeout
      ensures old(world.now) <= world.now && world.accepted == old(world.accepted)
      ensures |world.script| <= |old(world.script)|
      ensures old(world.script) == [] || deadline == 0 ==> world == old(world)
    {
      hide Course, EndOfTime, AllArrivals, Honest, Kepts, Messages, Tame, Later;
      expired := false;
      if deadline != 0 {
        var now := MonotonicMilliseconds();
        KernelSideLater(old(world));
        LaterKeeps(old(world), world);
        expired := now >= deadline;
      }
    }

    /** Moves the next response out of the way of a request. */
    method RetainArrival() returns (s: Status)
      requires Accounted()
      modifies this`pendingCount, this`eventCount, this`ledger, this`world, pending
      ensures Accounted()
      ensures Claims(ledger) == Claims(old(ledger)) && old(ledger) <= ledger
      ensures Losses(ledger) == Losses(old(ledger)) + if s == ENoBufs then 1 else 0
      ensures s == ENoBufs ==> pendingCount == SLOT_COUNT
      ensures s == Ok || s == ENoBufs || s == EAgain || s == ETimedOut || s.Errno?
      ensures Retried(s) ==> world.inbox == []
      ensures s.Errno? ==> Refused(world, s) && |old(world.past)| < |world.past|
      ensures old(world.now) <= world.now && world.accepted == old(world.accepted)
      ensures |world.script| <= |old(world.script)|
      ensures Evolved(old(world), world)
    {
      hide Course, EndOfTime, AllArrivals, Honest, HonestResponse, Kepts, Messages, Tame, Losses, Claims, Tick, Later;
      TickIsShorter(world);
      var message;
      s, message := ReceiveFromKernel();
      if s == Ok {
        s := Retain(message);
      }
    }

    /** The first loop of sg2002_rtos_message_call: until the driver takes the
        request, arriving responses are moved out of the way. The request is
        accepted once or not at all. */
    method CallSend(payload: seq<bv8>, length: u16, timeout: u32, deadline: nat, ghost start: nat)
      returns (s: Status, sequence: u32)
      requires Accounted() && length <= |payload| && Armed(start, timeout, deadline)
      modifies this`pendingCount, this`eventCount, this`ledger, this`world, pending
      ensures Accounted() && Armed(start, timeout, deadline) && old(world.now) <= world.now
      ensures s == EInval <==> length > PAYLOAD_SIZE
      ensures s != EMsgSize && s != EProto && s != ENoEnt
      ensures s == Blocked ==> world.script == []
      ensures s == Ok ==>
                && sequence != 0 && length <= PAYLOAD_SIZE
                && world.accepted == old(world.accepted) +
                     [Taken(RawSlot(sequence, length, Padded(payload[..length])), |ledger|)]
      ensures s != Ok ==> world.accepted == old(world.accepted)
      ensures Losses(ledger) == Losses(old(ledger)) + if s == ENoBufs then 1 else 0
      ensures s == ENoBufs ==> pendingCount == SLOT_COUNT
      ensures Claims(ledger) == Claims(old(ledger)) && old(ledger) <= ledger
      ensures length <= PAYLOAD_SIZE && old(world.script) != [] && !Retriable(old(world.script)[0].answer) ==>
                Sent(old(world.script)[0].answer, s, sequence) && ledger == old(ledger)
      ensures s.Errno? || s == ENoTty ==> Refused(world, s) && |old(world.past)| < |world.past|
      ensures s == EAgain ==> timeout == 0 && world.inbox == []
      ensures s == ETimedOut ==> timeout != U32_MAX && world.now >= start + timeout
      ensures Evolved(old(world), world)
    {
      hide Course, EndOfTime, AllArrivals, Honest, HonestResponse, Kepts, Messages, Tame, Losses, Claims, Tick, Later;
      hide UserSide, KernelSide;
      ghost var first := true;
      while true
        invariant Evolved(old(world), world)
        invariant Accounted() && Armed(start, timeout, deadline) && world.accepted == old(world.accepted)
        invariant Losses(ledger) == Losses(old(ledger)) && Claims(ledger) == Claims(old(ledger)) &&
              old(ledger) <= ledger
        invariant first ==> world == old(world) && ledger == old(ledger)
        invariant !first ==> old(world.script) != [] && Retriable(old(world.script)[0].answer)
        invariant old(world.now) <= world.now
        decreases |world.script|
      {
        s, sequence := SendLocked(payload, length);
        if s != EAgain && s != ETimedOut {
          return;
        }
        first := false;
        s := RetainArrival();
        if s == EAgain || s == ETimedOut {
          s := CallWait(true, timeout, deadline, start);
        }
        if s != Ok {
          return;
        }
      }
    }

    /** Takes the next response from the kernel: claimed if it carries this
        sequence, otherwise retained behind the others. */
    method ClaimArrival(sequence: u32) returns (s: Status, found: bool, m: Slot, ghost at: nat)
      requires Accounted() && Unretained(sequence)
      modifies this`pendingCount, this`eventCount, this`ledger, this`world, pending
      ensures Accounted() && (!found ==> Unretained(sequence))
      ensures found ==>
                && s == Ok && m.sequence == sequence && HonestResponse(m)
                && at == |old(ledger)| && ledger == old(ledger) + [Entry(m, Claimed)]
      ensures Claims(ledger) == Claims(old(ledger)) + if found then 1 else 0
      ensures Losses(ledger) == Losses(old(ledger)) + if s == ENoBufs then 1 else 0
      ensures s == ENoBufs ==> pendingCount == SLOT_COUNT
      ensures s == Ok || s == ENoBufs || s == EAgain || s == ETimedOut || s.Errno?
      ensures s == EAgain || s == ETimedOut ==> !found
      ensures old(ledger) <= ledger && old(world.now) <= world.now && world.accepted == old(world.accepted)
      ensures world.script == Tick(old(world)).script
      ensures s == Ok ==> |world.inbox| < |Tick(old(world)).inbox|
      ensures s == EAgain || s == ETimedOut ==> world == Tick(old(world)) && world.inbox == []
      ensures Tick(old(world)).inbox != [] ==>
                var head := Tick(old(world)).inbox[0];
                && world == Pop(Tick(old(world))) && m == head && (found <==> head.sequence == sequence)
                && (!found ==> s == if old(pendingCount) < SLOT_COUNT then Ok else ENoBufs)
                && pendingCount == old(pendingCount) + if !found && s == Ok then 1 else 0
      ensures s.Errno? ==> Refused(world, s) && |old(world.past)| < |world.past|
      ensures Evolved(old(world), world)
    {
      hide Course, EndOfTime, AllArrivals, Honest, HonestResponse, Kepts, Messages, Tame, Losses, Claims, Tick, Later;
      found, at := false, |ledger|;
      s, m := ReceiveFromKernel();
      if s != Ok {
        return;
      }
      if m.sequence == sequence {
        Enter(m, Claimed);
        found := true;
        return;
      }
      s := Retain(m);
    }

    /** One turn of the second loop after the retained responses have been
        searched: a response is taken from the kernel, or waited for. */
    method CallTurn(sequence: u32, timeout: u32, deadline: nat, ghost start: nat)
      returns (s: Status, ended: bool, m: Slot, ghost at: nat)
      requires Accounted() && Unretained(sequence) && Armed(start, timeout, deadline)
      modifies this`pendingCount, this`eventCount, this`ledger, this`world, pending
      ensures Accounted() && Armed(start, timeout, deadline) && Evolved(old(world), world)
      ensures old(world.now) <= world.now && world.accepted == old(world.accepted) && old(ledger) <= ledger
      ensures !ended ==> Unretained(sequence)
      ensures !ended ==>
                || |world.script| < |old(world.script)|
                || (|world.script| == |old(world.script)| && |world.inbox| < |old(world.inbox)|)
      ensures ended && s == Ok ==>
                && m.sequence == sequence && HonestResponse(m)
                && at == |old(ledger)| && ledger == old(ledger) + [Entry(m, Claimed)]
      ensures Claims(ledger) == Claims(old(ledger)) + if ended && s == Ok then 1 else 0
      ensures Losses(ledger) == Losses(old(ledger)) + if ended && s == ENoBufs then 1 else 0
      ensures ended ==> s == Ok || s == ENoBufs || s == EAgain || s == ETimedOut || s == Blocked || s.Errno?
      ensures ended && s == ENoBufs ==> pendingCount == SLOT_COUNT
      ensures ended && s == Blocked ==> world.script == [] && world.inbox == []
      ensures ended && s == EAgain ==> timeout == 0 && world.inbox == []
      ensures ended && s == ETimedOut ==> timeout != U32_MAX && world.now >= start + timeout
      ensures ended && s.Errno? ==> Refused(world, s) && |old(world.past)| < |world.past|
      ensures HeadIs(Tick(old(world)).inbox, sequence) ==> ended && s == Ok && m == Tick(old(world)).inbox[0]
      ensures Tick(old(world)).inbox != [] && !HeadIs(Tick(old(world)).inbox, sequence)
              && old(pendingCount) < SLOT_COUNT && deadline == 0 ==>
                !ended && world == Pop(Tick(old(world))) && pendingCount == old(pendingCount) + 1
    {
      hide Course, EndOfTime, AllArrivals, Honest, HonestResponse, Kepts, Messages, Tame, Losses, Claims, Tick, Later,
          Elapsed, Claim, UserSide, KernelSide, Refused, Unretained;
      TickIsShorter(world);
      var found;
      s, found, m, at := ClaimArrival(sequence);
      ended := true;
      if s == EAgain || s == ETimedOut {
        s := CallWait(false, timeout, deadline, start);
        ended := s != Ok;
      } else if s == Ok && !found {
        ended := CallExpired(timeout, deadline, start);
        if ended {
          s := ETimedOut;
        }
      }
    }

    /** The second loop of sg2002_rtos_message_call from its first look at the
        kernel on: no retained response carries the sequence then, and none that
        is retained meanwhile does. */
    method CallAwait(sequence: u32, timeout: u32, deadline: nat, ghost start: nat)
      returns (s: Status, m: Slot, ghost at: nat)
      requires Accounted() && Unretained(sequence) && Armed(start, timeout, deadline)
      modifies this`pendingCount, this`eventCount, this`ledger, this`world, pending
      ensures Accounted() && old(world.now) <= world.now && world.accepted == old(world.accepted)
      ensures s == Ok ==>
                && m.sequence == sequence && HonestResponse(m)
                && |old(ledger)| <= at < |ledger| && ledger[at] == Entry(m, Claimed)
      ensures old(ledger) <= ledger
      ensures Claims(ledger) == Claims(old(ledger)) + if s == Ok then 1 else 0
      ensures Losses(ledger) == Losses(old(ledger)) + if s == ENoBufs then 1 else 0
      ensures s == ENoBufs ==> pendingCount == SLOT_COUNT
      ensures s == Ok || s == ENoBufs || s == EAgain || s == ETimedOut || s == Blocked || s.Errno?
      ensures s == Blocked ==> world.script == [] && world.inbox == []
      ensures s == EAgain ==> timeout == 0 && world.inbox == []
      ensures s == ETimedOut ==> timeout != U32_MAX && world.now >= start + timeout
      ensures s.Errno? ==> Refused(world, s) && |old(world.past)| < |world.past|
      ensures HeadIs(Tick(old(world)).inbox, sequence) ==> s == Ok && m == Tick(old(world)).inbox[0]
      ensures var there := Tick(old(world)).inbox;
              var place := FirstWith(there, sequence);
              deadline == 0 && place < |there| && old(pendingCount) + place <= SLOT_COUNT ==>
                s == Ok && m == there[place]
      ensures Evolved(old(world), world)
    {
      hide Course, EndOfTime, AllArrivals, Honest, HonestResponse, Kepts, Messages, Tame, Losses, Claims, Tick, Later,
          Elapsed, Claim, Ahead, Refused, Unretained, Armed, FirstWith, Evolved, Accounted;
      AccountedMeans();
      ghost var there, k := Tick(world).inbox, 0;
      ghost var near := deadline == 0 && FirstWith(there, sequence) < |there| &&
                        pendingCount + FirstWith(there, sequence) <= SLOT_COUNT;
      AheadAtFirst(world, sequence);
      EvolvedOn(world, world, world);
      while true
        invariant near ==> Ahead(there, sequence, k, world) && pendingCount == old(pendingCount) + k
        invariant if k == 0 then world == old(world) else !HeadIs(there, sequence)
        invariant Evolved(old(world), world) && |old(world.past)| <= |world.past|
        invariant Accounted() && Valid() && Armed(start, timeout, deadline) && Unretained(sequence)
        invariant old(ledger) <= ledger && world.accepted == old(world.accepted)
        invariant Losses(ledger) == Losses(old(ledger)) && Claims(ledger) == Claims(old(ledger))
        invariant old(world.now) <= world.now
        decreases |world.script|, |world.inbox|
      {
        if near {
          NextAhead(there, sequence, k, world);
        }
        ghost var turned, awaited := world, HeadIs(Tick(world).inbox, sequence);
        var ended;
        s, ended, m, at := CallTurn(sequence, timeout, deadline, start);
        EvolvedOn(old(world), turned, world);
        if ended {
          assert near ==> awaited && k == FirstWith(there, sequence) && m == there[k];
          return;
        }
        k := k + 1;
        AccountedMeans();
        var found;
        s, found, m, at := ClaimRetained(sequence);
        assert !found;
      }
    }

    /** The second loop: claims the response with the sequence of the request.
        A retained response with the same sequence is taken for it at once; any
        other response is retained for receivers, in kernel order. */
    method CallMatch(sequence: u32, timeout: u32, deadline: nat, ghost start: nat)
      returns (s: Status, m: Slot, ghost at: nat)
      requires Accounted() && Armed(start, timeout, deadline)
      modifies this`pendingCount, this`eventCount, this`ledger, this`world, pending
      ensures Accounted() && old(world.now) <= world.now && world.accepted == old(world.accepted)
      ensures s == Ok ==>
                && m.sequence == sequence && HonestResponse(m)
                && at < |ledger| && ledger[at] == Entry(m, Claimed)
                && (at < |old(ledger)| <==> !old(Unretained(sequence)))
      ensures if s == Ok && at < |old(ledger)|
              then old(ledger)[at] == Entry(m, Kept) && ledger == old(ledger)[at := Entry(m, Claimed)]
              else old(ledger) <= ledger
      ensures !old(Unretained(sequence)) ==> s == Ok && world == old(world)
      ensures Claims(ledger) == Claims(old(ledger)) + if s == Ok then 1 else 0
      ensures Losses(ledger) == Losses(old(ledger)) + if s == ENoBufs then 1 else 0
      ensures s == ENoBufs ==> pendingCount == SLOT_COUNT
      ensures s == Ok || s == ENoBufs || s == EAgain || s == ETimedOut || s == Blocked || s.Errno?
      ensures s == Blocked ==> world.script == [] && world.inbox == []
      ensures s == EAgain ==> timeout == 0 && world.inbox == []
      ensures s == ETimedOut ==> timeout != U32_MAX && world.now >= start + timeout
      ensures s.Errno? ==> Refused(world, s) && |old(world.past)| < |world.past|
      ensures old(Unretained(sequence)) && HeadIs(Tick(old(world)).inbox, sequence) ==>
                s == Ok && m == Tick(old(world)).inbox[0]
      ensures var there := Tick(old(world)).inbox;
              var place := FirstWith(there, sequence);
              old(Unretained(sequence)) && (timeout == 0 || timeout == U32_MAX) && place < |there|
              && old(pendingCount) + place <= SLOT_COUNT ==>
                s == Ok && m == there[place]
      ensures Evolved(old(world), world)
    {
      hide Course, EndOfTime, AllArrivals, Honest, HonestResponse, Kepts, Messages, Tame, Losses, Claims, Tick, Later,
          Elapsed, Claim, Refused, Unretained, FirstWith, UserSide, KernelSide;
      EvolvedOn(world, world, world);
      var found;
      s, found, m, at := ClaimRetained(sequence);
      if !found {
        s, m, at := CallAwait(sequence, timeout, deadline, start);
      }
    }

    /** The retained responses in the ledger. */
    lemma RetainedMeans(sequence: u32)
      requires Accounted()
      ensures delivered <= Kepts(ledger)
      ensures (exists i :: |delivered| <= i < |Kepts(ledger)| && Kepts(ledger)[i].sequence == sequence)
         <==> !Unretained(sequence)
    {
      hide Kepts, Honest, Messages;
      KeptBehind(ledger, delivered, Retained(), sequence);
    }

    /** sg2002_rtos_message_call. `before` is the ledger when the driver took the
        request. On success, or when the response does not fit, exactly one
        message is claimed and it carries the sequence of that request; it is one
        that was already in the ledger if and only if a response with the same
        sequence was retained at that moment. */
    method MessageCall(payload: seq<bv8>, length: u16, response: array<bv8>, capacity: u16, timeout: u32)
      returns (s: Status, responseLength: u16, sequence: u32, ghost before: Ledger<Slot>, ghost at: nat,
        ghost sent: World)
      requires Accounted() && length <= |payload| && Buffer(response, capacity)
      modifies this`pendingCount, this`eventCount, this`ledger, this`world, pending, response
      ensures Accounted() && Evolved(old(world), world) && delivered == old(delivered)
      ensures s == EInval <==> length > PAYLOAD_SIZE
      ensures old(ledger) <= before
      ensures s == Ok || s == EMsgSize ==>
                && world.accepted == old(world.accepted)
                                     + [Taken(RawSlot(sequence, length, Padded(payload[..length])), |before|)]
                && at < |ledger| && ledger[at].fate == Claimed && ledger[at].message.sequence == sequence != 0
                && Received(ledger[at].message, capacity, s, responseLength, sequence, old(response[..]), response[..])
                && (if at < |before| then ledger == before[at := ledger[at]] && before[at] == ledger[at].(fate := Kept)
                    else before <= ledger)
                && delivered <= Kepts(before)
                && (at < |before| <==>
                    exists i :: |delivered| <= i < |Kepts(before)| && Kepts(before)[i].sequence == sequence)
      ensures s != Ok && s != EMsgSize ==> before <= ledger
      ensures s != Ok ==> response[..] == old(response[..])
      ensures |world.accepted| <= |old(world.accepted)| + 1
      ensures Claims(ledger) == Claims(old(ledger)) + if s == Ok || s == EMsgSize then 1 else 0
      ensures Losses(ledger) == Losses(old(ledger)) + if s == ENoBufs then 1 else 0
      ensures s == ENoBufs ==> pendingCount == SLOT_COUNT
      ensures s == EAgain ==> timeout == 0 && world.inbox == []
      ensures s == ETimedOut ==> timeout != U32_MAX && world.now >= old(world.now) + timeout
      ensures s == Blocked ==> world.script == []
      ensures s != EProto
      ensures s.Errno? || s == ENoTty ==> Refused(world, s) && |old(world.past)| < |world.past|
      ensures Evolved(old(world), sent) && Evolved(sent, world)
      ensures length <= PAYLOAD_SIZE && Begun(old(world), timeout).script != [] ==>
                match Begun(old(world), timeout).script[0].answer
                case Accept(sequences) =>
                  && before == old(ledger) && sequences != [] && sequence == sequences[0]
                  && |world.accepted| == |old(world.accepted)| + 1
                case Refuse(e) => Retried(e) || s == e
      ensures |sent.accepted| > |old(world.accepted)| ==>
                && delivered <= Kepts(before)
                && (if exists i :: |delivered| <= i < |Kepts(before)| && Kepts(before)[i].sequence == sequence
                    then s == Ok || s == EMsgSize
                    else HeadIs(Tick(sent).inbox, sequence) ==> s == Ok || s == EMsgSize)
    {
      hide Course, EndOfTime, AllArrivals, Honest, HonestResponse, Kepts, Messages, Tame, Losses, Claims;
      hide Tick, Later, Armed, Received, Begun, Refused, Evolved, Accounted, Unretained, HeadIs, FirstWith;
      AccountedMeans();
      responseLength, at := 0, 0;
      ghost var start := world.now;
      var deadline := TimeoutDeadline(timeout);
      AccountedLater();
      LaterKeeps(old(world), world);
      ghost var begun := world;
      s, sequence := CallSend(payload, length, timeout, deadline, start);
      EvolvedOn(old(world), begun, world);
      before, sent := ledger, world;
      EvolvedOn(sent, sent, sent);
      if s != Ok {
        return;
      }
      RetainedMeans(sequence);
      var m;
      s, m, at := CallMatch(sequence, timeout, deadline, start);
      EvolvedOn(old(world), sent, world);
      if s != Ok {
        return;
      }
      var echo;
      HonestIsSendable(m);
      s, responseLength, echo := CopyMessage(m, response, capacity);
      ReceivedSequence(m, capacity, s, responseLength, echo, old(response[..]), response[..]);
    }
  }
}
