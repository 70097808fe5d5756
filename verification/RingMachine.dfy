/** The shared-memory ring as a transition system: one producer, one consumer,
    and two caches that nothing keeps coherent.

    Every counter access, every cache line of a slot copy, every invalidate and
    every clean of sg2002_rtos_ring.c is a step of its own, and between any two
    of them the other side and both caches may move. A side whose `cached` flag
    is false accesses memory directly and runs with no cache operations, as the
    Linux side does; the firmware side is cached. The proofs cover all four
    combinations. Fences order the accesses of one side, which is the order in
    which this machine performs them. */
module RingMachine {
  import opened Wrap

  const SLOT_COUNT: nat := 64
  const LINES: nat := 16
  const PAYLOAD_SIZE: nat := 1018

  /** Cells are cache lines: two counter lines, then 16 lines for each slot. */
  const PRODUCER: nat := 0
  const CONSUMER: nat := 1
  const CELLS: nat := 1026

  /** A slot image, one number for the bytes of each cache line. */
  type Message = m: seq<nat> | |m| == LINES witness seq(LINES, _ => 0)

  /** The 16-bit length field at byte offset 4 of a slot. */
  function Length(m: Message): nat {
    (m[0] / TWO_32) % 0x1_0000
  }

  function LineAddr(counter: nat, k: nat): (a: nat)
    requires k < LINES
    ensures 2 <= a < CELLS
  {
    2 + (counter % SLOT_COUNT) * LINES + k
  }

  // ---------------------------------------------------------------- caches

  datatype Entry = Absent | Clean(value: nat) | Dirty(value: nat)

  datatype Side = Side(cached: bool, cache: seq<Entry>)

  type Memory = seq<nat>

  predicate Sized(side: Side, mem: Memory) {
    |mem| == CELLS && |side.cache| == CELLS
  }

  /** The value a load of this side returns. */
  function View(side: Side, mem: Memory, a: nat): nat
    requires Sized(side, mem) && a < CELLS
  {
    if side.cache[a].Absent? then mem[a] else side.cache[a].value
  }

  /** A load or a prefetch brings an absent line in, clean. */
  function Fetch(side: Side, mem: Memory, a: nat): (r: Side)
    requires Sized(side, mem) && a < CELLS
    ensures Sized(r, mem) && r.cached == side.cached
  {
    if side.cached && side.cache[a].Absent? then side.(cache := side.cache[a := Clean(mem[a])]) else side
  }

  function StoreSide(side: Side, mem: Memory, a: nat, v: nat): (r: Side)
    requires Sized(side, mem) && a < CELLS
    ensures Sized(r, mem) && r.cached == side.cached
  {
    if side.cached then side.(cache := side.cache[a := Dirty(v)]) else side
  }

  function StoreMemory(side: Side, mem: Memory, a: nat, v: nat): (r: Memory)
    requires Sized(side, mem) && a < CELLS
    ensures Sized(side, r)
  {
    if side.cached then mem else mem[a := v]
  }

  /** sync_for_device: write a dirty line back and keep it. */
  function CleanSide(side: Side, mem: Memory, a: nat): (r: Side)
    requires Sized(side, mem) && a < CELLS
    ensures Sized(r, mem) && r.cached == side.cached
  {
    if side.cache[a].Dirty? then side.(cache := side.cache[a := Clean(side.cache[a].value)]) else side
  }

  function WriteBack(side: Side, mem: Memory, a: nat): (r: Memory)
    requires Sized(side, mem) && a < CELLS
    ensures Sized(side, r)
  {
    if side.cache[a].Dirty? then mem[a := side.cache[a].value] else mem
  }

  /** sync_for_cpu drops the line without writing it back; an eviction drops
      it after a write back. */
  function Drop(side: Side, mem: Memory, a: nat): (r: Side)
    requires Sized(side, mem) && a < CELLS
    ensures Sized(r, mem) && r.cached == side.cached
  {
    side.(cache := side.cache[a := Absent])
  }

  // ---------------------------------------------------------------- program counters

  datatype PushResult = Fresh | Room | NoRoom | Ok | Full | Corrupt | Invalid

  datatype PopResult = Untried | Got(m: Message) | Empty | BadCounters | BadLength(m: Message)

  /** What the producer is doing: can_push is a probe, try_push carries a message. */
  datatype Goal = Probe | Push(m: Message)

  /** `sure` and `floor` are history: whether the push began right after a
      probe found room, and how many pops memory showed when the consumer line
      was invalidated. */
  datatype ProducerPc =
    | PIdle(last: PushResult)
    | PSyncProducer(goal: Goal, sure: bool)
    | PSyncConsumer(goal: Goal, sure: bool)
    | PLoadProducer(goal: Goal, sure: bool, floor: nat)
    | PLoadConsumer(goal: Goal, sure: bool, floor: nat, p: u32)
    | PStore(m: Message, p: u32, k: nat)
    | PClean(m: Message, p: u32, k: nat)
    | PPublish(m: Message, p: u32)
    | PCleanCounter(m: Message)

  /** `floor` is history: how many pushes memory showed when the producer line
      was invalidated. */
  datatype ConsumerPc =
    | CIdle(last: PopResult)
    | CSyncProducer
    | CSyncConsumer(floor: nat)
    | CLoadProducer(floor: nat)
    | CLoadConsumer(floor: nat, p: u32)
    | CSyncSlot(c: u32, k: nat)
    | CCopy(c: u32, buf: seq<nat>)
    | CPublish(c: u32, got: Message)
    | CCleanCounter(got: Message)

  /** `sent` and `received` are the messages whose counter store has been
      executed, in order; `acked` are those for which try_push has returned OK
      and `delivered` those that try_pop has returned with OK. `base` is the
      count the ring started from. */
  datatype State = State(
    base: nat,
    mem: Memory,
    pside: Side,
    cside: Side,
    ppc: ProducerPc,
    cpc: ConsumerPc,
    sent: seq<Message>,
    received: seq<Message>,
    acked: seq<Message>,
    delivered: seq<Message>)

  predicate Shaped(s: State) {
    && Sized(s.pside, s.mem) && Sized(s.cside, s.mem)
    && (s.ppc.PStore? || s.ppc.PClean? ==> s.ppc.k < LINES)
    && (s.cpc.CSyncSlot? ==> s.cpc.k < LINES)
    && (s.cpc.CCopy? ==> |s.cpc.buf| < LINES)
  }

  /** Pushes and pops whose counter store has been executed. */
  function Pushes(s: State): nat {
    s.base + |s.sent|
  }

  function Pops(s: State): nat {
    s.base + |s.received|
  }

  /** Pushes and pops that memory shows: a counter store may still sit dirty
      in the cache of its owner. */
  function ShownPushes(s: State): int
    requires Shaped(s)
  {
    if s.pside.cache[PRODUCER].Dirty? then Pushes(s) - 1 else Pushes(s)
  }

  function ShownPops(s: State): int
    requires Shaped(s)
  {
    if s.cside.cache[CONSUMER].Dirty? then Pops(s) - 1 else Pops(s)
  }

  /** The FIFO this machine implements. */
  function Queue(s: State): seq<Message>
    requires |s.received| <= |s.sent|
  {
    s.sent[|s.received|..]
  }

  // ---------------------------------------------------------------- steps

  datatype Label =
    | StartPush(m: Message)
    | StartProbe
    | Produce
    | StartPop
    | Consume
    | EvictP(a: nat)
    | EvictC(a: nat)
    | PrefetchP(a: nat)
    | PrefetchC(a: nat)

  function PStep(s: State): (t: State)
    requires Shaped(s)
    ensures Shaped(t)
  {
    match s.ppc
    case PIdle(_) => s
    case PSyncProducer(goal, sure) =>
      s.(pside := Drop(s.pside, s.mem, PRODUCER), ppc := PSyncConsumer(goal, sure))
    case PSyncConsumer(goal, sure) =>
      var floor := ShownPops(s);
      s.(pside := Drop(s.pside, s.mem, CONSUMER), ppc := PLoadProducer(goal, sure, if floor < 0 then 0 else floor))
    case PLoadProducer(goal, sure, floor) =>
      s.(pside := Fetch(s.pside, s.mem, PRODUCER),
         ppc := PLoadConsumer(goal, sure, floor, Low32(View(s.pside, s.mem, PRODUCER))))
    case PLoadConsumer(goal, sure, floor, p) =>
      var occupancy := Sub32(p, Low32(View(s.pside, s.mem, CONSUMER)));
      s.(pside := Fetch(s.pside, s.mem, CONSUMER),
         ppc := if occupancy > SLOT_COUNT then PIdle(Corrupt)
                else if goal.Probe? then PIdle(if occupancy < SLOT_COUNT then Room else NoRoom)
                else if occupancy == SLOT_COUNT then PIdle(Full)
                else PStore(goal.m, p, 0))
    case PStore(m, p, k) =>
      var a := LineAddr(p, k);
      s.(pside := StoreSide(s.pside, s.mem, a, m[k]), mem := StoreMemory(s.pside, s.mem, a, m[k]),
         ppc := if k + 1 < LINES then PStore(m, p, k + 1) else PClean(m, p, 0))
    case PClean(m, p, k) =>
      var a := LineAddr(p, k);
      s.(pside := CleanSide(s.pside, s.mem, a), mem := WriteBack(s.pside, s.mem, a),
         ppc := if k + 1 < LINES then PClean(m, p, k + 1) else PPublish(m, p))
    case PPublish(m, p) =>
      var v := Add32(p, 1);
      s.(pside := StoreSide(s.pside, s.mem, PRODUCER, v), mem := StoreMemory(s.pside, s.mem, PRODUCER, v),
         sent := s.sent + [m], ppc := PCleanCounter(m))
    case PCleanCounter(m) =>
      s.(pside := CleanSide(s.pside, s.mem, PRODUCER), mem := WriteBack(s.pside, s.mem, PRODUCER),
         acked := s.acked + [m], ppc := PIdle(Ok))
  }

  function CStep(s: State): (t: State)
    requires Shaped(s)
    ensures Shaped(t)
  {
    match s.cpc
    case CIdle(_) => s
    case CSyncProducer =>
      var floor := ShownPushes(s);
      s.(cside := Drop(s.cside, s.mem, PRODUCER), cpc := CSyncConsumer(if floor < 0 then 0 else floor))
    case CSyncConsumer(floor) =>
      s.(cside := Drop(s.cside, s.mem, CONSUMER), cpc := CLoadProducer(floor))
    case CLoadProducer(floor) =>
      s.(cside := Fetch(s.cside, s.mem, PRODUCER),
         cpc := CLoadConsumer(floor, Low32(View(s.cside, s.mem, PRODUCER))))
    case CLoadConsumer(floor, p) =>
      var c := Low32(View(s.cside, s.mem, CONSUMER));
      var occupancy := Sub32(p, c);
      s.(cside := Fetch(s.cside, s.mem, CONSUMER),
         cpc := if occupancy > SLOT_COUNT then CIdle(BadCounters)
                else if occupancy == 0 then CIdle(Empty)
                else CSyncSlot(c, 0))
    case CSyncSlot(c, k) =>
      s.(cside := Drop(s.cside, s.mem, LineAddr(c, k)),
         cpc := if k + 1 < LINES then CSyncSlot(c, k + 1) else CCopy(c, []))
    case CCopy(c, buf) =>
      var a := LineAddr(c, |buf|);
      var grown := buf + [View(s.cside, s.mem, a)];
      s.(cside := Fetch(s.cside, s.mem, a),
         cpc := if |grown| < LINES then CCopy(c, grown) else CPublish(c, grown))
    case CPublish(c, got) =>
      var v := Add32(c, 1);
      s.(cside := StoreSide(s.cside, s.mem, CONSUMER, v), mem := StoreMemory(s.cside, s.mem, CONSUMER, v),
         received := s.received + [got], cpc := CCleanCounter(got))
    case CCleanCounter(got) =>
      s.(cside := CleanSide(s.cside, s.mem, CONSUMER), mem := WriteBack(s.cside, s.mem, CONSUMER),
         delivered := if Length(got) > PAYLOAD_SIZE then s.delivered else s.delivered + [got],
         cpc := CIdle(if Length(got) > PAYLOAD_SIZE then BadLength(got) else Got(got)))
  }

  /** One step; a label that does not apply leaves the state alone. */
  function Step(s: State, l: Label): (t: State)
    requires Shaped(s)
    ensures Shaped(t)
  {
    match l
    case StartPush(m) =>
      if !s.ppc.PIdle? then s
      else if Length(m) > PAYLOAD_SIZE then s.(ppc := PIdle(Invalid))
      else s.(ppc := PSyncProducer(Push(m), s.ppc.last == Room))
    case StartProbe => if s.ppc.PIdle? then s.(ppc := PSyncProducer(Probe, false)) else s
    case Produce => PStep(s)
    case StartPop => if s.cpc.CIdle? then s.(cpc := CSyncProducer) else s
    case Consume => CStep(s)
    case EvictP(a) =>
      if a >= CELLS then s
      else s.(pside := Drop(s.pside, s.mem, a), mem := WriteBack(s.pside, s.mem, a))
    case EvictC(a) =>
      if a >= CELLS then s
      else s.(cside := Drop(s.cside, s.mem, a), mem := WriteBack(s.cside, s.mem, a))
    case PrefetchP(a) => if a >= CELLS then s else s.(pside := Fetch(s.pside, s.mem, a))
    case PrefetchC(a) => if a >= CELLS then s else s.(cside := Fetch(s.cside, s.mem, a))
  }

  function Run(s: State, ls: seq<Label>): (t: State)
    requires Shaped(s)
    ensures Shaped(t)
    decreases |ls|
  {
    if ls == [] then s else Run(Step(s, ls[0]), ls[1..])
  }

  /** A ring at rest: both counters at any common value, slot memory holding
      anything, caches holding any clean lines, however stale, except that a
      cached copy of a side's own counter is current. */
  predicate Init(s: State) {
    && Shaped(s)
    && s.ppc == PIdle(Fresh) && s.cpc == CIdle(Untried)
    && s.sent == [] && s.received == [] && s.acked == [] && s.delivered == []
    && s.mem[PRODUCER] == Low32(s.base) && s.mem[CONSUMER] == Low32(s.base)
    && Undirtied(s.pside) && Undirtied(s.cside)
    && (!s.pside.cache[PRODUCER].Absent? ==> s.pside.cache[PRODUCER].value == Low32(s.base))
    && (!s.cside.cache[CONSUMER].Absent? ==> s.cside.cache[CONSUMER].value == Low32(s.base))
  }

  predicate Undirtied(side: Side) {
    && (forall a :: 0 <= a < |side.cache| ==> !side.cache[a].Dirty?)
    && (!side.cached ==> forall a :: 0 <= a < |side.cache| ==> side.cache[a].Absent?)
  }
}
