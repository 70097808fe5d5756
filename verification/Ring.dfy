/** The ring operations of sg2002_rtos_ring.c on shared counters and slot memory. */
module Rings {
  import opened Wrap
  import opened Shm

  datatype RingResult = Ok | Empty | Full | Corrupt | Invalid

  /** The slot of the i-th message behind a consumer counter. */
  function SlotIndex(consumer: u32, i: nat): (k: nat)
    ensures k < SLOT_COUNT
  {
    (consumer + i) % SLOT_COUNT
  }

  /** The n oldest messages, read from slot memory. */
  function QueueOf(slots: seq<Slot>, consumer: u32, n: nat): (q: seq<Slot>)
    requires |slots| == SLOT_COUNT
    ensures |q| == n
  {
    if n == 0 then [] else QueueOf(slots, consumer, n - 1) + [slots[SlotIndex(consumer, n - 1)]]
  }

  class Ring {
    var producer: u32
    var consumer: u32
    const slots: array<Slot>

    ghost predicate Valid() {
      slots.Length == SLOT_COUNT
    }

    function Occupancy(): nat
      reads this
    {
      Sub32(producer, consumer)
    }

    /** Both peers have kept the counters within one ring of each other. */
    ghost predicate Honest()
      reads this
    {
      Valid() && Occupancy() <= SLOT_COUNT
    }

    /** The abstract value: published messages, oldest first. */
    ghost function Contents(): seq<Slot>
      requires Honest()
      reads this, slots
    {
      QueueOf(slots[..], consumer, Occupancy())
    }

    /** A ring whose counters both start at `start`. */
    constructor (start: u32)
      ensures Honest() && Contents() == [] && fresh(slots)
      ensures producer == consumer == start
    {
      producer, consumer := start, start;
      slots := new Slot[SLOT_COUNT](_ => BLANK);
    }

    /** can_push: negative for corrupt counters, else one exactly when a push fits. */
    method CanPush() returns (answer: int)
      requires Valid()
      ensures answer == if Occupancy() > SLOT_COUNT then -3 else if Occupancy() < SLOT_COUNT then 1 else 0
      ensures answer >= 0 <==> Honest()
      ensures Honest() ==> (answer == 1 <==> |Contents()| < SLOT_COUNT)
    {
      var occupancy := Sub32(producer, consumer);
      if occupancy > SLOT_COUNT {
        return -3;
      }
      answer := if occupancy < SLOT_COUNT then 1 else 0;
    }

    method TryPush(m: Slot) returns (r: RingResult)
      requires Valid()
      modifies this`producer, slots
      ensures Valid()
      ensures r == (if !Sendable(m) then Invalid
                    else if old(Occupancy()) > SLOT_COUNT then Corrupt
                    else if old(Occupancy()) == SLOT_COUNT then Full else Ok)
      ensures r == Ok ==> Honest() && Contents() == old(Contents()) + [m]
      ensures r != Ok ==> unchanged(this) && unchanged(slots)
    {
      if !Sendable(m) {
        return Invalid;
      }
      var p, c := producer, consumer;
      var occupancy := Sub32(p, c);
      if occupancy > SLOT_COUNT {
        return Corrupt;
      }
      if occupancy == SLOT_COUNT {
        return Full;
      }
      slots[p % SLOT_COUNT] := m;
      producer := Add32(p, 1);
      PushAppends(old(slots[..]), p, c, m);
      assert slots[..] == old(slots[..])[p % SLOT_COUNT := m];
      return Ok;
    }

    /** A popped message whose length field is out of range is reported as
        corrupt, but it has been consumed all the same. */
    method TryPop() returns (r: RingResult, m: Slot)
      requires Valid()
      modifies this`consumer
      ensures Valid()
      ensures old(Occupancy()) > SLOT_COUNT ==> r == Corrupt && unchanged(this)
      ensures old(Occupancy()) == 0 ==> r == Empty && unchanged(this)
      ensures 0 < old(Occupancy()) <= SLOT_COUNT ==>
                && Honest() && [m] + Contents() == old(Contents())
                && r == if !Sendable(m) then Corrupt else Ok
    {
      m := BLANK;
      var p, c := producer, consumer;
      var occupancy := Sub32(p, c);
      if occupancy > SLOT_COUNT {
        return Corrupt, m;
      }
      if occupancy == 0 {
        return Empty, m;
      }
      m := slots[c % SLOT_COUNT];
      consumer := Add32(c, 1);
      PopRemoves(slots[..], p, c);
      r := if !Sendable(m) then Corrupt else Ok;
    }
  }

  lemma NextIndex(c: u32, i: nat)
    ensures SlotIndex(Add32(c, 1), i) == SlotIndex(c, i + 1)
  {
    if c + 1 == TWO_32 {
      ModIsUnique(c + 1, TWO_32, 1, 0);
      var q, r := i / 64, i % 64;
      ModIsUnique(c + 1 + i, 64, q + 67108864, r);
    } else {
      ModIsUnique(c + 1, TWO_32, 0, c + 1);
    }
  }

  /** The producer's slot lies just behind the queue, also across the wrap. */
  lemma ProducerIndex(p: u32, c: u32)
    requires Sub32(p, c) <= SLOT_COUNT
    ensures p % SLOT_COUNT == SlotIndex(c, Sub32(p, c))
  {
    var n := Sub32(p, c);
    if p < c {
      ModIsUnique(p - c, TWO_32, -1, p - c + TWO_32);
      ModIsUnique(c + n, 64, p / 64 + 67108864, p % 64);
    } else {
      ModIsUnique(p - c, TWO_32, 0, p - c);
    }
  }

  lemma IncrementedDifference(p: u32, c: u32)
    requires Sub32(p, c) < TWO_32 - 1
    ensures Sub32(Add32(p, 1), c) == Sub32(p, c) + 1
  {
    var q := (p - c) / TWO_32;
    var e := (p + 1) / TWO_32;
    ModIsUnique(Add32(p, 1) - c, TWO_32, q - e, Sub32(p, c) + 1);
  }

  lemma DecrementedDifference(p: u32, c: u32)
    requires 0 < Sub32(p, c)
    ensures Sub32(p, Add32(c, 1)) == Sub32(p, c) - 1
  {
    var q := (p - c) / TWO_32;
    var e := (c + 1) / TWO_32;
    ModIsUnique(p - Add32(c, 1), TWO_32, q + e, Sub32(p, c) - 1);
  }

  /** Writing a slot behind the queue does not change the queue. */
  lemma {:induction false} QueueFrame(slots: seq<Slot>, c: u32, n: nat, k: nat, m: Slot)
    requires |slots| == SLOT_COUNT && k < SLOT_COUNT
    requires forall i :: 0 <= i < n ==> SlotIndex(c, i) != k
    ensures QueueOf(slots[k := m], c, n) == QueueOf(slots, c, n)
  {
    if n > 0 {
      QueueFrame(slots, c, n - 1, k, m);
    }
  }

  /** Advancing the consumer counter drops the oldest message. */
  lemma {:induction false} QueueTail(slots: seq<Slot>, c: u32, n: nat)
    requires |slots| == SLOT_COUNT
    ensures [slots[c % SLOT_COUNT]] + QueueOf(slots, Add32(c, 1), n) == QueueOf(slots, c, n + 1)
  {
    if n > 0 {
      QueueTail(slots, c, n - 1);
      NextIndex(c, n - 1);
    } else {
      assert QueueOf(slots, c, 0) == [];
    }
  }

  lemma PushAppends(slots: seq<Slot>, p: u32, c: u32, m: Slot)
    requires |slots| == SLOT_COUNT && Sub32(p, c) < SLOT_COUNT
    ensures Sub32(Add32(p, 1), c) == Sub32(p, c) + 1
    ensures QueueOf(slots[p % SLOT_COUNT := m], c, Sub32(p, c) + 1) == QueueOf(slots, c, Sub32(p, c)) + [m]
  {
    var n := Sub32(p, c);
    IncrementedDifference(p, c);
    ProducerIndex(p, c);
    forall i | 0 <= i < n ensures SlotIndex(c, i) != p % SLOT_COUNT {
      SlotsDiffer(c + i, c + n);
    }
    QueueFrame(slots, c, n, p % SLOT_COUNT, m);
  }

  lemma PopRemoves(slots: seq<Slot>, p: u32, c: u32)
    requires |slots| == SLOT_COUNT && 0 < Sub32(p, c) <= SLOT_COUNT
    ensures Sub32(p, Add32(c, 1)) == Sub32(p, c) - 1
    ensures [slots[c % SLOT_COUNT]] + QueueOf(slots, Add32(c, 1), Sub32(p, c) - 1) == QueueOf(slots, c, Sub32(p, c))
  {
    DecrementedDifference(p, c);
    QueueTail(slots, c, Sub32(p, c) - 1);
  }
}
