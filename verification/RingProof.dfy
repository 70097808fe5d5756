/** Every run of the ring machine is a run of a 64-place FIFO. */
module RingProof {
  import opened Wrap
  import opened RingMachine

  /** v is the low half of a count between lo and hi. */
  predicate Between(v: int, lo: int, hi: int) {
    0 <= (v - lo) % TWO_32 <= hi - lo
  }

  lemma BetweenCounts(lo: nat, x: nat, hi: int)
    requires lo <= x <= hi < lo + TWO_32
    ensures Between(Low32(x), lo, hi)
  {
    var r := Low32(x) - lo;
    var q := x / TWO_32;
    ModIsUnique(r, TWO_32, -q, x - lo);
  }

  /** Recovers the count behind a counter value that Between describes. */
  lemma BetweenWitness(v: u32, lo: nat, hi: int) returns (x: nat)
    requires Between(v, lo, hi) && hi < lo + TWO_32
    ensures lo <= x <= hi && v == Low32(x)
  {
    var d := (v - lo) % TWO_32;
    x := lo + d;
    var q := (v - lo) / TWO_32;
    assert x == v - q * TWO_32;
    ModIsUnique(x, TWO_32, -q, v);
  }

  // ---------------------------------------------------------------- invariant

  /** Message i of the history occupies this line of shared memory. */
  function HomeAddr(s: State, i: nat, k: nat): nat
    requires k < LINES
  {
    LineAddr(s.base + i, k)
  }

  predicate Histories(s: State) {
    && |s.received| <= |s.sent|
    && s.received == s.sent[..|s.received|]
    && (forall i :: 0 <= i < |s.sent| ==> Length(s.sent[i]) <= PAYLOAD_SIZE)
    && (!s.ppc.PCleanCounter? ==> s.acked == s.sent)
    && (!s.cpc.CCleanCounter? ==> s.delivered == s.received)
  }

  predicate Counters(s: State)
    requires Shaped(s)
  {
    && Pops(s) <= ShownPushes(s)
    && s.base <= ShownPops(s)
    && Pushes(s) - ShownPops(s) <= SLOT_COUNT
    && s.mem[PRODUCER] == ShownPushes(s) % TWO_32
    && s.mem[CONSUMER] == ShownPops(s) % TWO_32
    && (!s.pside.cache[PRODUCER].Absent? ==> s.pside.cache[PRODUCER].value == Low32(Pushes(s)))
    && (!s.cside.cache[CONSUMER].Absent? ==> s.cside.cache[CONSUMER].value == Low32(Pops(s)))
    && (s.pside.cache[PRODUCER].Dirty? ==> s.ppc.PCleanCounter?)
    && (s.cside.cache[CONSUMER].Dirty? ==> s.cpc.CCleanCounter?)
    && !s.pside.cache[CONSUMER].Dirty?
    && !s.cside.cache[PRODUCER].Dirty?
  }

  /** An uncached side keeps nothing; only the producer dirties slot lines, and
      only those of the slot it is filling. */
  predicate Caches(s: State)
    requires Shaped(s)
  {
    && (!s.pside.cached ==> forall a :: 0 <= a < CELLS ==> s.pside.cache[a].Absent?)
    && (!s.cside.cached ==> forall a :: 0 <= a < CELLS ==> s.cside.cache[a].Absent?)
    && (forall a :: 2 <= a < CELLS ==> !s.cside.cache[a].Dirty?)
    && (forall a :: 2 <= a < CELLS && s.pside.cache[a].Dirty? ==> Filling(s) && InSlot(Pushes(s), a))
  }

  predicate Filling(s: State) {
    s.ppc.PStore? || s.ppc.PClean?
  }

  predicate InSlot(counter: nat, a: nat) {
    2 + (counter % SLOT_COUNT) * LINES <= a < 2 + (counter % SLOT_COUNT) * LINES + LINES
  }

  /** Memory holds every message that has been published and not yet popped. */
  predicate Published(s: State)
    requires Shaped(s)
  {
    forall i, k :: |s.received| <= i < |s.sent| && 0 <= k < LINES ==>
      s.mem[HomeAddr(s, i, k)] == s.sent[i][k]
  }

  /** Line k of the slot being filled holds v, in the cache or behind it. */
  predicate Holds(s: State, k: nat, v: nat)
    requires Shaped(s) && k < LINES
  {
    var a := LineAddr(Pushes(s), k);
    if s.pside.cache[a].Dirty? then s.pside.cache[a].value == v else s.mem[a] == v
  }

  /** Line k of the slot being filled has reached memory. */
  predicate Landed(s: State, k: nat, v: nat)
    requires Shaped(s) && k < LINES
  {
    var a := LineAddr(Pushes(s), k);
    !s.pside.cache[a].Dirty? && s.mem[a] == v
  }

  predicate ProducerAt(s: State)
    requires Shaped(s)
  {
    match s.ppc
    case PIdle(last) =>
      && last != Corrupt
      && (last == Room ==> Pushes(s) - ShownPops(s) < SLOT_COUNT)
    case PSyncProducer(goal, sure) => GoalAt(s, goal, sure)
    case PSyncConsumer(goal, sure) => GoalAt(s, goal, sure)
    case PLoadProducer(goal, sure, floor) => GoalAt(s, goal, sure) && FreshConsumer(s, floor)
    case PLoadConsumer(goal, sure, floor, p) =>
      GoalAt(s, goal, sure) && FreshConsumer(s, floor) && p == Low32(Pushes(s))
    case PStore(m, p, k) =>
      && p == Low32(Pushes(s)) && Pushes(s) - ShownPops(s) < SLOT_COUNT && Length(m) <= PAYLOAD_SIZE
      && forall j :: 0 <= j < k ==> Holds(s, j, m[j])
    case PClean(m, p, k) =>
      && p == Low32(Pushes(s)) && Pushes(s) - ShownPops(s) < SLOT_COUNT && Length(m) <= PAYLOAD_SIZE
      && (forall j :: 0 <= j < k ==> Landed(s, j, m[j]))
      && forall j :: k <= j < LINES ==> Holds(s, j, m[j])
    case PPublish(m, p) =>
      && p == Low32(Pushes(s)) && Pushes(s) - ShownPops(s) < SLOT_COUNT && Length(m) <= PAYLOAD_SIZE
      && forall j :: 0 <= j < LINES ==> Landed(s, j, m[j])
    case PCleanCounter(m) => s.sent == s.acked + [m]
  }

  predicate GoalAt(s: State, goal: Goal, sure: bool)
    requires Shaped(s)
  {
    && (goal.Push? ==> Length(goal.m) <= PAYLOAD_SIZE)
    && (sure ==> Pushes(s) - ShownPops(s) < SLOT_COUNT)
  }

  /** After the invalidate, what a load of the consumer line can return. */
  predicate FreshConsumer(s: State, floor: nat)
    requires Shaped(s)
  {
    && s.base <= floor && Pushes(s) - floor <= SLOT_COUNT && floor <= ShownPops(s)
    && (!s.pside.cache[CONSUMER].Absent? ==> s.pside.cache[CONSUMER].value < TWO_32
                                             && Between(s.pside.cache[CONSUMER].value, floor, ShownPops(s)))
  }

  predicate FreshProducer(s: State, floor: nat)
    requires Shaped(s)
  {
    && Pops(s) <= floor <= ShownPushes(s)
    && (!s.cside.cache[PRODUCER].Absent? ==> s.cside.cache[PRODUCER].value < TWO_32
                                             && Between(s.cside.cache[PRODUCER].value, floor, ShownPushes(s)))
  }

  /** A cached copy of line k of the slot being popped is the published line. */
  predicate Faithful(s: State, k: nat)
    requires Shaped(s) && |s.received| < |s.sent| && k < LINES
  {
    var e := s.cside.cache[LineAddr(Pops(s), k)];
    e.Absent? || e.value == s.sent[|s.received|][k]
  }

  predicate Popping(s: State, c: u32)
    requires Shaped(s)
  {
    c == Low32(Pops(s)) && Pops(s) < ShownPushes(s)
  }

  predicate ConsumerAt(s: State)
    requires Shaped(s) && Histories(s)
  {
    match s.cpc
    case CIdle(last) => !last.BadCounters? && !last.BadLength?
    case CSyncProducer => true
    case CSyncConsumer(floor) => FreshProducer(s, floor)
    case CLoadProducer(floor) => FreshProducer(s, floor)
    case CLoadConsumer(floor, p) =>
      Pops(s) <= floor && Between(p, floor, ShownPushes(s))
    case CSyncSlot(c, k) => Popping(s, c) && forall j :: 0 <= j < k ==> Faithful(s, j)
    case CCopy(c, buf) =>
      && Popping(s, c) && (forall j :: 0 <= j < LINES ==> Faithful(s, j))
      && buf == s.sent[|s.received|][..|buf|]
    case CPublish(c, got) => Popping(s, c) && got == s.sent[|s.received|]
    case CCleanCounter(got) => s.received == s.delivered + [got]
  }

  ghost predicate Inv(s: State) {
    && Shaped(s) && Histories(s) && Counters(s) && Caches(s) && Published(s)
    && ProducerAt(s) && ConsumerAt(s)
  }

  // ---------------------------------------------------------------- address facts

  lemma SameSlot(count: nat, k: nat)
    requires k < LINES
    ensures LineAddr(Low32(count), k) == LineAddr(count, k)
  {
    SlotOfCount(count);
  }

  // ---------------------------------------------------------------- frames

  /** A cache may lose line a, keep it, or bring in what memory holds. */
  predicate Refetched(before: Side, after: Side, mem: Memory, a: nat)
    requires Sized(before, mem) && Sized(after, mem) && a < CELLS
  {
    after.cache[a].Absent? || after.cache[a] == before.cache[a] || after.cache[a] == Clean(mem[a])
  }

  /** What the consumer relies on survives anything the producer side does,
      and anything the consumer's own cache does. */
  lemma ConsumerFrame(s: State, t: State)
    requires Inv(s) && Shaped(t) && Histories(t) && Counters(t) && Published(t)
    requires t.cpc == s.cpc && t.received == s.received && t.delivered == s.delivered && t.base == s.base
    requires |s.sent| <= |t.sent| && s.sent == t.sent[..|s.sent|]
    requires ShownPushes(s) <= ShownPushes(t)
    requires forall a :: 0 <= a < CELLS && a != CONSUMER ==> Refetched(s.cside, t.cside, t.mem, a)
    ensures ConsumerAt(t)
  {
    assert Refetched(s.cside, t.cside, t.mem, PRODUCER);
    if t.cpc.CSyncConsumer? || t.cpc.CLoadProducer? {
      BetweenCounts(t.cpc.floor, ShownPushes(t), ShownPushes(t));
    } else if t.cpc.CSyncSlot? {
      forall j | 0 <= j < t.cpc.k ensures Faithful(t, j) {
        FaithfulFrame(s, t, j);
      }
    } else if t.cpc.CCopy? {
      forall j | 0 <= j < LINES ensures Faithful(t, j) {
        FaithfulFrame(s, t, j);
      }
    }
  }

  lemma FaithfulFrame(s: State, t: State, j: nat)
    requires Shaped(s) && Shaped(t) && Published(t)
    requires t.received == s.received && t.base == s.base
    requires |s.received| < |s.sent| <= |t.sent| && s.sent == t.sent[..|s.sent|]
    requires j < LINES && Faithful(s, j)
    requires Refetched(s.cside, t.cside, t.mem, LineAddr(Pops(s), j))
    ensures Faithful(t, j)
  {
    assert t.mem[HomeAddr(t, |t.received|, j)] == t.sent[|t.received|][j];
  }

  /** Line a still means to the producer what it meant before. */
  predicate LineKept(s: State, t: State, a: nat)
    requires Shaped(s) && Shaped(t) && a < CELLS
  {
    var before := s.pside.cache[a];
    var after := t.pside.cache[a];
    if before.Dirty? then after == before || (!after.Dirty? && t.mem[a] == before.value)
    else !after.Dirty? && t.mem[a] == s.mem[a]
  }

  /** What the producer relies on survives anything the consumer side does,
      and anything the producer's own cache does. */
  lemma ProducerFrame(s: State, t: State)
    requires Inv(s) && Shaped(t) && Counters(t)
    requires t.ppc == s.ppc && t.sent == s.sent && t.acked == s.acked && t.base == s.base
    requires ShownPops(s) <= ShownPops(t)
    requires Refetched(s.pside, t.pside, t.mem, CONSUMER)
    requires forall a :: 2 <= a < CELLS ==> LineKept(s, t, a)
    ensures ProducerAt(t)
  {
    if t.ppc.PLoadProducer? || t.ppc.PLoadConsumer? {
      BetweenCounts(t.ppc.floor, ShownPops(t), ShownPops(t));
    } else if t.ppc.PStore? || t.ppc.PClean? || t.ppc.PPublish? {
      SlotFrame(s, t);
    }
  }

  lemma SlotFrame(s: State, t: State)
    requires Inv(s) && Shaped(t) && Pushes(s) == Pushes(t) && t.ppc == s.ppc
    requires forall a :: 2 <= a < CELLS ==> LineKept(s, t, a)
    ensures t.ppc.PStore? ==> forall j :: 0 <= j < t.ppc.k ==> Holds(t, j, t.ppc.m[j])
    ensures t.ppc.PClean? ==> forall j :: 0 <= j < t.ppc.k ==> Landed(t, j, t.ppc.m[j])
    ensures t.ppc.PClean? ==> forall j :: t.ppc.k <= j < LINES ==> Holds(t, j, t.ppc.m[j])
    ensures t.ppc.PPublish? ==> forall j :: 0 <= j < LINES ==> Landed(t, j, t.ppc.m[j])
  {
    forall j, v | 0 <= j < LINES && Holds(s, j, v) ensures Holds(t, j, v) {
      assert LineKept(s, t, LineAddr(Pushes(s), j));
    }
    forall j, v | 0 <= j < LINES && Landed(s, j, v) ensures Landed(t, j, v) {
      assert LineKept(s, t, LineAddr(Pushes(s), j));
    }
  }

  /** The slot being filled is not the home of any unpopped message. */
  lemma HomeOutside(s: State, i: nat, k: nat)
    requires |s.received| <= i < |s.sent| < |s.received| + SLOT_COUNT && k < LINES
    ensures !InSlot(Pushes(s), HomeAddr(s, i, k))
  {
    SlotsDiffer(s.base + i, Pushes(s));
  }

  /** Unpopped messages survive writes that stay in the slot being filled. */
  lemma PublishedFrame(s: State, t: State)
    requires Inv(s) && Shaped(t)
    requires t.sent == s.sent && t.base == s.base && |s.received| <= |t.received|
    requires forall a :: 2 <= a < CELLS && t.mem[a] != s.mem[a] ==>
      InSlot(Pushes(s), a) && Pushes(s) < Pops(s) + SLOT_COUNT
    ensures Published(t)
  {
    forall i, k | |t.received| <= i < |t.sent| && 0 <= k < LINES
      ensures t.mem[HomeAddr(t, i, k)] == t.sent[i][k]
    {
      var a := HomeAddr(t, i, k);
      assert s.mem[HomeAddr(s, i, k)] == s.sent[i][k];
      if t.mem[a] != s.mem[a] {
        HomeOutside(s, i, k);
      }
    }
  }

  // ---------------------------------------------------------------- cache steps

  lemma EvictPKeeps(s: State, a: nat)
    requires Inv(s)
    ensures Inv(Step(s, EvictP(a)))
  {
    hide Between, Length, Holds, Landed, Faithful, PStep, CStep;
    var t := Step(s, EvictP(a));
    if a < CELLS {
      PublishedFrame(s, t);
      ConsumerFrame(s, t);
      ProducerFrame(s, t);
    }
  }

  lemma EvictCKeeps(s: State, a: nat)
    requires Inv(s)
    ensures Inv(Step(s, EvictC(a)))
  {
    hide Between, Length, Holds, Landed, Faithful, PStep, CStep;
    var t := Step(s, EvictC(a));
    if a < CELLS {
      PublishedFrame(s, t);
      ConsumerFrame(s, t);
      ProducerFrame(s, t);
    }
  }

  lemma PrefetchPKeeps(s: State, a: nat)
    requires Inv(s)
    ensures Inv(Step(s, PrefetchP(a)))
  {
    hide Between, Length, Holds, Landed, Faithful, PStep, CStep;
    var t := Step(s, PrefetchP(a));
    if a < CELLS {
      PublishedFrame(s, t);
      ConsumerFrame(s, t);
      ProducerFrame(s, t);
    }
  }

  lemma PrefetchCKeeps(s: State, a: nat)
    requires Inv(s)
    ensures Inv(Step(s, PrefetchC(a)))
  {
    hide Between, Length, Holds, Landed, Faithful, PStep, CStep;
    var t := Step(s, PrefetchC(a));
    if a < CELLS {
      PublishedFrame(s, t);
      ConsumerFrame(s, t);
      ProducerFrame(s, t);
    }
  }

  // ---------------------------------------------------------------- producer steps

  lemma PushStartKeeps(s: State, l: Label)
    requires Inv(s) && (l.StartPush? || l.StartProbe?)
    ensures Inv(Step(s, l))
  {
    hide Between, Holds, Landed, Faithful, LineAddr, InSlot, Length, PStep, CStep;
    var t := Step(s, l);
    PublishedFrame(s, t);
    ConsumerFrame(s, t);
  }

  lemma PopStartKeeps(s: State)
    requires Inv(s)
    ensures Inv(Step(s, StartPop))
  {
    hide Between, Holds, Landed, Faithful, LineAddr, InSlot, Length, PStep, CStep;
    var t := Step(s, StartPop);
    PublishedFrame(s, t);
    ProducerFrame(s, t);
  }

  lemma PSyncKeeps(s: State)
    requires Inv(s) && (s.ppc.PSyncProducer? || s.ppc.PSyncConsumer?)
    ensures Inv(PStep(s))
  {
    hide Length, Holds, Landed, Faithful, CStep;
    var t := PStep(s);
    PublishedFrame(s, t);
    ConsumerFrame(s, t);
  }

  lemma PLoadProducerKeeps(s: State)
    requires Inv(s) && s.ppc.PLoadProducer?
    ensures Inv(PStep(s))
  {
    hide Length, Holds, Landed, Faithful, CStep;
    var t := PStep(s);
    PublishedFrame(s, t);
    ConsumerFrame(s, t);
  }

  /** The count behind the consumer value that the producer loads. */
  lemma LoadedPops(s: State) returns (c: nat)
    requires Inv(s) && s.ppc.PLoadConsumer?
    ensures s.ppc.floor <= c <= ShownPops(s)
    ensures Low32(View(s.pside, s.mem, CONSUMER)) == Low32(c)
    ensures Sub32(s.ppc.p, Low32(View(s.pside, s.mem, CONSUMER))) == Pushes(s) - c
  {
    if s.pside.cache[CONSUMER].Absent? {
      c := ShownPops(s);
    } else {
      c := BetweenWitness(s.pside.cache[CONSUMER].value, s.ppc.floor, ShownPops(s));
    }
    SubOfCounts(Pushes(s), c);
  }

  lemma PLoadConsumerKeeps(s: State)
    requires Inv(s) && s.ppc.PLoadConsumer?
    ensures Inv(PStep(s))
  {
    var t := PStep(s);
    PublishedFrame(s, t);
    ConsumerFrame(s, t);
    var c := LoadedPops(s);
  }

  lemma PStoreKeeps(s: State)
    requires Inv(s) && s.ppc.PStore?
    ensures Inv(PStep(s))
  {
    var t := PStep(s);
    var k := s.ppc.k;
    SameSlot(Pushes(s), k);
    PublishedFrame(s, t);
    ConsumerFrame(s, t);
    forall j | 0 <= j <= k ensures Holds(t, j, s.ppc.m[j]) {
      if j < k {
        assert Holds(s, j, s.ppc.m[j]);
      }
    }
  }

  /** One line more has reached memory. */
  lemma CleanLands(s: State)
    requires Inv(s) && s.ppc.PClean?
    ensures forall j :: 0 <= j <= s.ppc.k ==> Landed(PStep(s), j, s.ppc.m[j])
    ensures forall j :: s.ppc.k < j < LINES ==> Holds(PStep(s), j, s.ppc.m[j])
  {
    hide Between, Faithful, Length, Published, ConsumerAt, CStep;
    var t := PStep(s);
    var k := s.ppc.k;
    SameSlot(Pushes(s), k);
    forall j | 0 <= j <= k ensures Landed(t, j, s.ppc.m[j]) {
      if j < k {
        assert Landed(s, j, s.ppc.m[j]);
      } else {
        assert Holds(s, j, s.ppc.m[j]);
      }
    }
    forall j | k < j < LINES ensures Holds(t, j, s.ppc.m[j]) {
      assert Holds(s, j, s.ppc.m[j]);
    }
  }

  lemma PCleanKeeps(s: State)
    requires Inv(s) && s.ppc.PClean?
    ensures Inv(PStep(s))
  {
    hide Between, Faithful, Length, CStep;
    var t := PStep(s);
    SameSlot(Pushes(s), s.ppc.k);
    CleanLands(s);
    PublishedFrame(s, t);
    ConsumerFrame(s, t);
    if t.ppc.PPublish? {
      forall a | 2 <= a < CELLS ensures !t.pside.cache[a].Dirty? {
        if InSlot(Pushes(s), a) {
          var j := a - LineAddr(Pushes(s), 0);
          assert Landed(t, j, s.ppc.m[j]);
        }
      }
    }
  }

  lemma PublishedGrows(s: State)
    requires Inv(s) && s.ppc.PPublish?
    ensures Published(PStep(s))
  {
    hide Between, Faithful, Caches, ConsumerAt;
    var t := PStep(s);
    forall i, k | |t.received| <= i < |t.sent| && 0 <= k < LINES
      ensures t.mem[HomeAddr(t, i, k)] == t.sent[i][k]
    {
      if i < |s.sent| {
        assert s.mem[HomeAddr(s, i, k)] == s.sent[i][k];
      } else {
        assert Landed(s, k, s.ppc.m[k]);
      }
    }
  }

  lemma PPublishKeeps(s: State)
    requires Inv(s) && s.ppc.PPublish?
    ensures Inv(PStep(s))
  {
    hide Between, Faithful, Holds, Landed, LineAddr, Length;
    var t := PStep(s);
    AddOfCount(Pushes(s));
    assert s.sent == t.sent[..|s.sent|];
    PublishedGrows(s);
    ConsumerFrame(s, t);
  }

  lemma PCleanCounterKeeps(s: State)
    requires Inv(s) && s.ppc.PCleanCounter?
    ensures Inv(PStep(s))
  {
    var t := PStep(s);
    PublishedFrame(s, t);
    ConsumerFrame(s, t);
  }

  // ---------------------------------------------------------------- consumer steps

  lemma CSyncKeeps(s: State)
    requires Inv(s) && (s.cpc.CSyncProducer? || s.cpc.CSyncConsumer?)
    ensures Inv(CStep(s))
  {
    var t := CStep(s);
    PublishedFrame(s, t);
    ProducerFrame(s, t);
  }

  /** The count behind the producer value that the consumer loads. */
  lemma LoadedPushes(s: State) returns (p: nat)
    requires Inv(s) && s.cpc.CLoadProducer?
    ensures s.cpc.floor <= p <= ShownPushes(s)
    ensures Low32(View(s.cside, s.mem, PRODUCER)) == Low32(p)
  {
    if s.cside.cache[PRODUCER].Absent? {
      p := ShownPushes(s);
    } else {
      p := BetweenWitness(s.cside.cache[PRODUCER].value, s.cpc.floor, ShownPushes(s));
    }
  }

  lemma CLoadProducerKeeps(s: State)
    requires Inv(s) && s.cpc.CLoadProducer?
    ensures Inv(CStep(s))
  {
    var t := CStep(s);
    PublishedFrame(s, t);
    ProducerFrame(s, t);
    var p := LoadedPushes(s);
    BetweenCounts(s.cpc.floor, p, ShownPushes(s));
  }

  /** The occupancy the consumer computes. */
  lemma PopOccupancy(s: State) returns (p: nat)
    requires Inv(s) && s.cpc.CLoadConsumer?
    ensures s.cpc.floor <= p <= ShownPushes(s)
    ensures Low32(View(s.cside, s.mem, CONSUMER)) == Low32(Pops(s))
    ensures Sub32(s.cpc.p, Low32(View(s.cside, s.mem, CONSUMER))) == p - Pops(s)
  {
    p := BetweenWitness(s.cpc.p, s.cpc.floor, ShownPushes(s));
    SubOfCounts(p, Pops(s));
  }

  lemma CLoadConsumerKeeps(s: State)
    requires Inv(s) && s.cpc.CLoadConsumer?
    ensures Inv(CStep(s))
  {
    var t := CStep(s);
    PublishedFrame(s, t);
    ProducerFrame(s, t);
    var p := PopOccupancy(s);
  }

  lemma CSyncSlotKeeps(s: State)
    requires Inv(s) && s.cpc.CSyncSlot?
    ensures Inv(CStep(s))
  {
    var t := CStep(s);
    var k := s.cpc.k;
    SameSlot(Pops(s), k);
    PublishedFrame(s, t);
    ProducerFrame(s, t);
    forall j | 0 <= j <= k ensures Faithful(t, j) {
      if j < k {
        assert Faithful(s, j);
      }
    }
  }

  lemma CCopyKeeps(s: State)
    requires Inv(s) && s.cpc.CCopy?
    ensures Inv(CStep(s))
  {
    var t := CStep(s);
    var k := |s.cpc.buf|;
    SameSlot(Pops(s), k);
    PublishedFrame(s, t);
    ProducerFrame(s, t);
    assert s.mem[HomeAddr(s, |s.received|, k)] == s.sent[|s.received|][k];
    assert Faithful(s, k);
    forall j | 0 <= j < LINES ensures Faithful(t, j) {
      assert Faithful(s, j);
    }
  }

  lemma CPublishKeeps(s: State)
    requires Inv(s) && s.cpc.CPublish?
    ensures Inv(CStep(s))
  {
    var t := CStep(s);
    AddOfCount(Pops(s));
    PublishedFrame(s, t);
    assert t.received == t.sent[..|t.received|];
    ProducerFrame(s, t);
  }

  lemma CCleanCounterKeeps(s: State)
    requires Inv(s) && s.cpc.CCleanCounter?
    ensures Inv(CStep(s))
  {
    var t := CStep(s);
    PublishedFrame(s, t);
    ProducerFrame(s, t);
    assert s.cpc.got == s.sent[|s.received| - 1];
  }

  // ---------------------------------------------------------------- every run

  lemma StepKeeps(s: State, l: Label)
    requires Inv(s)
    ensures Inv(Step(s, l))
  {
    match l
    case EvictP(a) => EvictPKeeps(s, a);
    case EvictC(a) => EvictCKeeps(s, a);
    case PrefetchP(a) => PrefetchPKeeps(s, a);
    case PrefetchC(a) => PrefetchCKeeps(s, a);
    case Produce =>
      match s.ppc {
        case PIdle(_) =>
        case PSyncProducer(_, _) => PSyncKeeps(s);
        case PSyncConsumer(_, _) => PSyncKeeps(s);
        case PLoadProducer(_, _, _) => PLoadProducerKeeps(s);
        case PLoadConsumer(_, _, _, _) => PLoadConsumerKeeps(s);
        case PStore(_, _, _) => PStoreKeeps(s);
        case PClean(_, _, _) => PCleanKeeps(s);
        case PPublish(_, _) => PPublishKeeps(s);
        case PCleanCounter(_) => PCleanCounterKeeps(s);
      }
    case Consume =>
      match s.cpc {
        case CIdle(_) =>
        case CSyncProducer => CSyncKeeps(s);
        case CSyncConsumer(_) => CSyncKeeps(s);
        case CLoadProducer(_) => CLoadProducerKeeps(s);
        case CLoadConsumer(_, _) => CLoadConsumerKeeps(s);
        case CSyncSlot(_, _) => CSyncSlotKeeps(s);
        case CCopy(_, _) => CCopyKeeps(s);
        case CPublish(_, _) => CPublishKeeps(s);
        case CCleanCounter(_) => CCleanCounterKeeps(s);
      }
    case StartPush(_) => PushStartKeeps(s, l);
    case StartProbe => PushStartKeeps(s, l);
    case StartPop => PopStartKeeps(s);
  }

  lemma {:induction false} RunKeeps(s: State, ls: seq<Label>)
    requires Inv(s)
    ensures Inv(Run(s, ls))
    decreases |ls|
  {
    if ls != [] {
      StepKeeps(s, ls[0]);
      RunKeeps(Step(s, ls[0]), ls[1..]);
    }
  }

  /** In every interleaving, with any eviction and prefetch on either side and
      counters that wrap any number of times: what try_pop has returned is a
      prefix of what try_push has accepted or is about to acknowledge, at most
      64 messages are queued, and neither side ever reports corruption. */
  lemma {:induction false} EveryRunIsFifo(s: State, ls: seq<Label>)
    requires Init(s)
    ensures
      var t := Run(s, ls);
      && t.delivered <= t.received <= t.sent && t.acked <= t.sent
      && |t.sent| <= |t.acked| + 1
      && |t.sent| - |t.received| <= SLOT_COUNT
      && t.ppc != PIdle(Corrupt)
      && t.cpc != CIdle(BadCounters)
      && !(t.cpc.CIdle? && t.cpc.last.BadLength?)
  {
    RunKeeps(s, ls);
  }

  lemma PublishHasRoom(s: State)
    requires Inv(s)
    ensures |s.received| <= |s.sent|
    ensures s.ppc.PPublish? ==> |s.sent| - |s.received| < SLOT_COUNT
    ensures s.cpc.CPublish? ==> |s.received| < |s.sent| && s.cpc.got == s.sent[|s.received|]
  {
    hide Caches, Published, Holds, Landed, Faithful, Between;
  }

  lemma HistoriesOf(s: State)
    requires Inv(s)
    ensures Histories(s) && |s.received| <= |s.sent|
  {
  }

  /** Only the counter stores move the histories. */
  lemma ProducerMoves(s: State)
    requires Shaped(s)
    ensures PStep(s).received == s.received
    ensures PStep(s).sent == if s.ppc.PPublish? then s.sent + [s.ppc.m] else s.sent
  {
    hide View, Fetch, Drop, StoreSide, StoreMemory, CleanSide, WriteBack, ShownPops;
  }

  lemma ConsumerMoves(s: State)
    requires Shaped(s)
    ensures CStep(s).sent == s.sent
    ensures CStep(s).received == if s.cpc.CPublish? then s.received + [s.cpc.got] else s.received
  {
    hide View, Fetch, Drop, StoreSide, StoreMemory, CleanSide, WriteBack, ShownPushes, Length;
  }

  lemma StepMoves(s: State, l: Label)
    requires Shaped(s)
    ensures Step(s, l).sent == if l == Produce && s.ppc.PPublish? then s.sent + [s.ppc.m] else s.sent
    ensures Step(s, l).received == if l == Consume && s.cpc.CPublish? then s.received + [s.cpc.got] else s.received
  {
    ProducerMoves(s);
    ConsumerMoves(s);
    hide PStep, CStep, Fetch, Drop, WriteBack, Length;
  }

  lemma RestOfAppend<T>(s: seq<T>, m: T, k: nat)
    requires k <= |s|
    ensures (s + [m])[k..] == s[k..] + [m]
    ensures k < |s| ==> s[k..][0] == s[k] && s[k..][1..] == s[k + 1..]
  {
  }

  /** Each step is a step of the FIFO: the producer's counter store enqueues
      its message into a queue with room, the consumer's dequeues the message
      it has copied, and no other step changes the queue. */
  lemma StepRefinesFifo(s: State, l: Label)
    requires Inv(s)
    ensures Histories(Step(s, l))
    ensures
      var q, q' := Queue(s), Queue(Step(s, l));
      if l == Produce && s.ppc.PPublish? then |q| < SLOT_COUNT && q' == q + [s.ppc.m]
      else if l == Consume && s.cpc.CPublish? then q != [] && s.cpc.got == q[0] && q' == q[1..]
      else q' == q
  {
    hide Inv, Histories, Step, Shaped;
    StepKeeps(s, l);
    InvIsShaped(s);
    HistoriesOf(Step(s, l));
    PublishHasRoom(s);
    StepMoves(s, l);
    if l == Produce && s.ppc.PPublish? {
      RestOfAppend(s.sent, s.ppc.m, |s.received|);
    } else if l == Consume && s.cpc.CPublish? {
      RestOfAppend(s.sent, s.cpc.got, |s.received|);
    }
  }

  lemma InvIsShaped(s: State)
    requires Inv(s)
    ensures Shaped(s)
  {
  }

  /** sync_for_cpu never discards a write that has not been cleaned. */
  lemma InvalidateLosesNothing(s: State)
    requires Inv(s)
    ensures s.ppc.PSyncProducer? ==> !s.pside.cache[PRODUCER].Dirty?
    ensures s.ppc.PSyncConsumer? ==> !s.pside.cache[CONSUMER].Dirty?
    ensures s.cpc.CSyncProducer? ==> !s.cside.cache[PRODUCER].Dirty?
    ensures s.cpc.CSyncConsumer? ==> !s.cside.cache[CONSUMER].Dirty?
    ensures s.cpc.CSyncSlot? ==> !s.cside.cache[LineAddr(s.cpc.c, s.cpc.k)].Dirty?
  {
  }

  lemma {:induction false} NoRunLosesAWrite(s: State, ls: seq<Label>)
    requires Init(s)
    ensures
      var t := Run(s, ls);
      && (t.ppc.PSyncProducer? ==> !t.pside.cache[PRODUCER].Dirty?)
      && (t.ppc.PSyncConsumer? ==> !t.pside.cache[CONSUMER].Dirty?)
      && (t.cpc.CSyncProducer? ==> !t.cside.cache[PRODUCER].Dirty?)
      && (t.cpc.CSyncConsumer? ==> !t.cside.cache[CONSUMER].Dirty?)
      && (t.cpc.CSyncSlot? ==> !t.cside.cache[LineAddr(t.cpc.c, t.cpc.k)].Dirty?)
  {
    RunKeeps(s, ls);
  }

  // ---------------------------------------------------------------- truthful answers

  /** The pop in progress, or the last one, cannot miss a message. */
  predicate WillFind(s: State) {
    match s.cpc
    case CIdle(last) => !last.Empty?
    case CSyncProducer => |s.acked| > |s.received|
    case CSyncConsumer(floor) => floor > Pops(s)
    case CLoadProducer(floor) => floor > Pops(s)
    case CLoadConsumer(floor, _) => floor > Pops(s)
    case _ => true
  }

  lemma ConsumerWillFind(s: State)
    requires Inv(s) && WillFind(s)
    ensures WillFind(CStep(s))
  {
    hide LineAddr, Faithful, Published, Caches, Holds, Landed;
    if s.cpc.CLoadConsumer? {
      var p := PopOccupancy(s);
    }
  }

  lemma ProducerOnlyAdds(s: State)
    requires Inv(s)
    ensures var t := PStep(s);
            t.cpc == s.cpc && |s.acked| <= |t.acked| && t.received == s.received && t.base == s.base
  {
    hide LineAddr, View, Fetch, Drop, StoreSide, StoreMemory, CleanSide, WriteBack, ShownPops, Inv;
  }

  lemma StepWillFind(s: State, l: Label)
    requires Inv(s) && WillFind(s) && !l.StartPop?
    ensures WillFind(Step(s, l))
  {
    if l == Consume {
      ConsumerWillFind(s);
    } else {
      ProducerOnlyAdds(s);
      InvIsShaped(s);
      hide Inv, PStep, CStep, LineAddr, Fetch, Drop, WriteBack, Length;
    }
  }

  /** A try_pop that begins when an acknowledged push is still unpopped never
      returns EMPTY, whatever else runs while it is under way. */
  lemma {:induction false} PopFindsAcknowledged(s: State, ls: seq<Label>)
    requires Inv(s) && WillFind(s)
    requires forall i :: 0 <= i < |ls| ==> !ls[i].StartPop?
    ensures Run(s, ls).cpc != CIdle(Empty)
    decreases |ls|
  {
    if ls != [] {
      StepKeeps(s, ls[0]);
      StepWillFind(s, ls[0]);
      PopFindsAcknowledged(Step(s, ls[0]), ls[1..]);
    }
  }

  /** The push or probe in progress, or the last one, cannot miss a free slot. */
  predicate WillFit(s: State)
    requires Shaped(s)
  {
    match s.ppc
    case PIdle(last) => last != Full && last != NoRoom
    case PSyncProducer(_, _) => Pushes(s) - ShownPops(s) < SLOT_COUNT
    case PSyncConsumer(_, _) => Pushes(s) - ShownPops(s) < SLOT_COUNT
    case PLoadProducer(_, _, floor) => Pushes(s) - floor < SLOT_COUNT
    case PLoadConsumer(_, _, floor, _) => Pushes(s) - floor < SLOT_COUNT
    case _ => true
  }

  lemma ProducerWillFit(s: State)
    requires Inv(s) && WillFit(s)
    ensures WillFit(PStep(s))
  {
    hide LineAddr, Holds, Landed, Published, Caches, ConsumerAt;
    if s.ppc.PLoadConsumer? {
      var c := LoadedPops(s);
    }
  }

  lemma StepWillFit(s: State, l: Label)
    requires Inv(s) && WillFit(s) && !l.StartPush? && !l.StartProbe?
    ensures WillFit(Step(s, l))
  {
    if l == Produce {
      ProducerWillFit(s);
    } else {
      hide PStep, LineAddr, Holds, Landed, Published, Caches, Between, ProducerAt;
    }
  }

  /** A try_push or can_push that begins when fewer than 64 messages are
      undelivered never reports a full ring. */
  lemma {:induction false} PushFitsWhenDelivered(s: State, ls: seq<Label>)
    requires Inv(s) && WillFit(s)
    requires forall i :: 0 <= i < |ls| ==> !ls[i].StartPush? && !ls[i].StartProbe?
    ensures Run(s, ls).ppc != PIdle(Full) && Run(s, ls).ppc != PIdle(NoRoom)
    decreases |ls|
  {
    if ls != [] {
      StepKeeps(s, ls[0]);
      StepWillFit(s, ls[0]);
      PushFitsWhenDelivered(Step(s, ls[0]), ls[1..]);
    }
  }

  /** The answer of can_push stays true: once it has reported room, any number
      of steps later a push still finds room. */
  lemma {:induction false} RoomPersists(s: State, before: seq<Label>, m: Message, after: seq<Label>)
    requires Inv(s) && s.ppc == PIdle(Room) && Length(m) <= PAYLOAD_SIZE
    requires forall i :: 0 <= i < |before| ==> !before[i].StartPush? && !before[i].StartProbe?
    requires forall i :: 0 <= i < |after| ==> !after[i].StartPush? && !after[i].StartProbe?
    ensures
      var t := Run(s, before);
      var u := Run(Step(t, StartPush(m)), after);
      u.ppc != PIdle(Full) && u.ppc != PIdle(Corrupt) && u.ppc != PIdle(Invalid)
    decreases |before|
  {
    if before != [] {
      StepKeeps(s, before[0]);
      RoomPersists(Step(s, before[0]), before[1..], m, after);
    } else {
      var t := Step(s, StartPush(m));
      StepKeeps(s, StartPush(m));
      PushFitsWhenDelivered(t, after);
      RunKeeps(t, after);
      NeverInvalid(t, after);
    }
  }

  lemma {:induction false} NeverInvalid(s: State, ls: seq<Label>)
    requires Inv(s) && s.ppc != PIdle(Invalid)
    requires forall i :: 0 <= i < |ls| ==> !ls[i].StartPush?
    ensures Run(s, ls).ppc != PIdle(Invalid)
    decreases |ls|
  {
    if ls != [] {
      StepKeeps(s, ls[0]);
      NeverInvalid(Step(s, ls[0]), ls[1..]);
    }
  }

  // ---------------------------------------------------------------- wait-freedom

  /** Steps the producer still has to make before its call returns. */
  function ProducerLeft(s: State): nat
    requires Shaped(s)
  {
    match s.ppc
    case PIdle(_) => 0
    case PSyncProducer(_, _) => 38
    case PSyncConsumer(_, _) => 37
    case PLoadProducer(_, _, _) => 36
    case PLoadConsumer(_, _, _, _) => 35
    case PStore(_, _, k) => 34 - k
    case PClean(_, _, k) => 18 - k
    case PPublish(_, _) => 2
    case PCleanCounter(_) => 1
  }

  function ConsumerLeft(s: State): nat
    requires Shaped(s)
  {
    match s.cpc
    case CIdle(_) => 0
    case CSyncProducer => 38
    case CSyncConsumer(_) => 37
    case CLoadProducer(_) => 36
    case CLoadConsumer(_, _) => 35
    case CSyncSlot(_, k) => 34 - k
    case CCopy(_, buf) => 18 - |buf|
    case CPublish(_, _) => 2
    case CCleanCounter(_) => 1
  }

  function Count(ls: seq<Label>, l: Label): nat {
    if ls == [] then 0 else (if ls[0] == l then 1 else 0) + Count(ls[1..], l)
  }

  lemma ProducerShortens(s: State)
    requires Shaped(s)
    ensures ProducerLeft(PStep(s)) <= if ProducerLeft(s) > 0 then ProducerLeft(s) - 1 else 0
    ensures PStep(s).cpc == s.cpc
  {
    hide LineAddr, View, Fetch, Drop, StoreSide, StoreMemory, CleanSide, WriteBack, ShownPops, Sub32, Low32, Add32;
  }

  lemma ConsumerShortens(s: State)
    requires Shaped(s)
    ensures ConsumerLeft(CStep(s)) <= if ConsumerLeft(s) > 0 then ConsumerLeft(s) - 1 else 0
    ensures CStep(s).ppc == s.ppc
  {
    hide LineAddr, View, Fetch, Drop, StoreSide, StoreMemory, CleanSide, WriteBack, Length, ShownPushes, Sub32,
        Low32, Add32;
  }

  lemma StepShortens(s: State, l: Label)
    requires Shaped(s) && !l.StartPush? && !l.StartProbe? && !l.StartPop?
    ensures ProducerLeft(Step(s, l)) <= if l == Produce &&
          ProducerLeft(s) > 0 then ProducerLeft(s) - 1 else ProducerLeft(s)
    ensures ConsumerLeft(Step(s, l)) <= if l == Consume &&
          ConsumerLeft(s) > 0 then ConsumerLeft(s) - 1 else ConsumerLeft(s)
  {
    ProducerShortens(s);
    ConsumerShortens(s);
    hide PStep, CStep, Fetch, Drop, WriteBack, Length;
  }

  /** A push returns after at most 38 of its own steps, however the other side
      and the caches behave; so does a pop. */
  lemma {:induction false} EveryCallReturns(s: State, ls: seq<Label>)
    requires Shaped(s)
    requires forall i :: 0 <= i < |ls| ==> !ls[i].StartPush? && !ls[i].StartProbe? && !ls[i].StartPop?
    ensures Count(ls, Produce) >= 38 ==> Run(s, ls).ppc.PIdle?
    ensures Count(ls, Consume) >= 38 ==> Run(s, ls).cpc.CIdle?
  {
    LeftAfter(s, ls);
    var t := Run(s, ls);
    assert ProducerLeft(t) == 0 ==> t.ppc.PIdle?;
    assert ConsumerLeft(t) == 0 ==> t.cpc.CIdle?;
  }

  lemma {:induction false} LeftAfter(s: State, ls: seq<Label>)
    requires Shaped(s)
    requires forall i :: 0 <= i < |ls| ==> !ls[i].StartPush? && !ls[i].StartProbe? && !ls[i].StartPop?
    ensures ProducerLeft(Run(s, ls)) == 0 || ProducerLeft(Run(s, ls)) <= ProducerLeft(s) - Count(ls, Produce)
    ensures ConsumerLeft(Run(s, ls)) == 0 || ConsumerLeft(Run(s, ls)) <= ConsumerLeft(s) - Count(ls, Consume)
    decreases |ls|
  {
    if ls != [] {
      StepShortens(s, ls[0]);
      LeftAfter(Step(s, ls[0]), ls[1..]);
    }
  }
}
