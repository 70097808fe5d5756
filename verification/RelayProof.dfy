/** What holds in every interleaving of the firmware, Linux and the caches of
    both rings, for every handler. */
module RelayProof {
  import opened Wrap
  import opened App
  import opened RingMachine
  import opened RingProof
  import opened Relays

  // ---------------------------------------------------------------- one ring

  /** A push of m that has not stored its counter yet. */
  predicate Carries(pc: ProducerPc, m: Message) {
    match pc
    case PSyncProducer(goal, _) => goal == Push(m)
    case PSyncConsumer(goal, _) => goal == Push(m)
    case PLoadProducer(goal, _, _) => goal == Push(m)
    case PLoadConsumer(goal, _, _, _) => goal == Push(m)
    case PStore(x, _, _) => x == m
    case PClean(x, _, _) => x == m
    case PPublish(x, _) => x == m
    case PCleanCounter(_) => false
    case PIdle(_) => false
  }

  predicate Probing(pc: ProducerPc) {
    match pc
    case PSyncProducer(goal, _) => goal == Probe
    case PSyncConsumer(goal, _) => goal == Probe
    case PLoadProducer(goal, _, _) => goal == Probe
    case PLoadConsumer(goal, _, _, _) => goal == Probe
    case _ => false
  }

  lemma NotIdle(pc: ProducerPc, m: Message)
    requires Carries(pc, m)
    ensures !pc.PIdle? && !pc.PCleanCounter?
  {
  }

  lemma SoundPcs(r: RingMachine.State)
    requires Inv(r)
    ensures r.ppc != PIdle(PushResult.Corrupt)
    ensures r.cpc.CIdle? ==> !r.cpc.last.BadCounters? && !r.cpc.last.BadLength?
    ensures Shaped(r) && |r.received| <= |r.sent| && r.received == r.sent[..|r.received|]
  {
  }

  /** A push goes on to publish its message, and does not find the ring full. */
  lemma PushGoesOn(r: RingMachine.State, m: Message)
    requires Inv(r) && WillFit(r) && Carries(r.ppc, m)
    ensures var t := RingMachine.Step(r, Produce);
            && Inv(t) && WillFit(t) && t.cpc == r.cpc && t.received == r.received
            && if r.ppc.PPublish? then t.ppc == PCleanCounter(m) && t.sent == r.sent + [m]
               else Carries(t.ppc, m) && t.sent == r.sent
  {
    StepKeeps(r, Produce);
    StepWillFit(r, Produce);
    InvIsShaped(r);
    StepMoves(r, Produce);
    ProducerShortens(r);
    SoundPcs(RingMachine.Step(r, Produce));
    hide Inv, View, Fetch, Drop, StoreSide, StoreMemory, CleanSide, WriteBack, ShownPops, Shaped, LineAddr, Length,
        Sub32, Low32, Add32;
  }

  lemma ProbeGoesOn(r: RingMachine.State)
    requires Inv(r) && Probing(r.ppc)
    ensures var t := RingMachine.Step(r, Produce);
            && Inv(t) && t.cpc == r.cpc && t.received == r.received && t.sent == r.sent
            && (Probing(t.ppc) || t.ppc == PIdle(Room) || t.ppc == PIdle(NoRoom))
            && (WillFit(r) ==> WillFit(t))
  {
    StepKeeps(r, Produce);
    if WillFit(r) {
      StepWillFit(r, Produce);
    }
    InvIsShaped(r);
    StepMoves(r, Produce);
    ProducerShortens(r);
    SoundPcs(RingMachine.Step(r, Produce));
    hide Inv, View, Fetch, Drop, StoreSide, StoreMemory, CleanSide, WriteBack, ShownPops, Shaped, LineAddr, Length,
        Sub32, Low32, Add32, WillFit;
  }

  lemma PushEnds(r: RingMachine.State)
    requires Inv(r) && r.ppc.PCleanCounter?
    ensures var t := RingMachine.Step(r, Produce);
            Inv(t) && t.cpc == r.cpc && t.received == r.received && t.sent == r.sent && t.ppc == PIdle(PushResult.Ok)
  {
    StepKeeps(r, Produce);
    InvIsShaped(r);
    StepMoves(r, Produce);
    hide Inv, CleanSide, WriteBack, Shaped;
  }

  /** A pop comes to hold the head of the queue, or finds the queue empty. */
  lemma PopGoesOn(q: RingMachine.State)
    requires Inv(q) && !q.cpc.CIdle?
    ensures var t := RingMachine.Step(q, Consume);
            && Inv(t) && t.ppc == q.ppc && t.sent == q.sent && (WillFind(q) ==> WillFind(t))
            && match q.cpc
               case CPublish(_, got) => t.cpc == CCleanCounter(got) && t.received == q.received + [got]
               case CCleanCounter(got) => t.cpc == CIdle(Got(got)) && t.received == q.received
               case _ => t.received == q.received && !t.cpc.CCleanCounter? && (t.cpc.CIdle? ==> t.cpc.last == Empty)
  {
    StepKeeps(q, Consume);
    if WillFind(q) {
      StepWillFind(q, Consume);
    }
    InvIsShaped(q);
    StepMoves(q, Consume);
    ConsumerShortens(q);
    SoundPcs(RingMachine.Step(q, Consume));
    hide Inv, View, Fetch, Drop, StoreSide, StoreMemory, CleanSide, WriteBack, ShownPushes, Shaped, LineAddr, Length,
        Sub32, Low32, Add32, WillFind;
  }

  /** What a step without the producer leaves alone, and one without the consumer. */
  lemma OthersMove(r: RingMachine.State, l: RingMachine.Label)
    requires Inv(r)
    ensures Inv(RingMachine.Step(r, l))
    ensures NotAPush(l) ==>
              var t := RingMachine.Step(r, l);
              t.ppc == r.ppc && t.sent == r.sent && (WillFit(r) ==> WillFit(t))
    ensures NotAPop(l) ==>
              var t := RingMachine.Step(r, l);
              t.cpc == r.cpc && t.received == r.received && |r.acked| <= |t.acked| && (WillFind(r) ==> WillFind(t))
  {
    StepKeeps(r, l);
    InvIsShaped(r);
    StepMoves(r, l);
    ProducerShortens(r);
    ConsumerShortens(r);
    ProducerOnlyAdds(r);
    if WillFit(r) && NotAPush(l) {
      StepWillFit(r, l);
    }
    if WillFind(r) && NotAPop(l) {
      StepWillFind(r, l);
    }
    hide Inv, PStep, CStep, Fetch, Drop, WriteBack, Shaped, WillFit, WillFind, Length;
  }

  lemma PushBegins(r: RingMachine.State, m: Message)
    requires Inv(r) && r.ppc == PIdle(Room) && Length(m) <= PAYLOAD_SIZE
    ensures var t := RingMachine.Step(r, StartPush(m));
            && Inv(t) && WillFit(t) && t.cpc == r.cpc && t.sent == r.sent && t.received == r.received
            && Carries(t.ppc, m)
  {
    StepKeeps(r, StartPush(m));
  }

  lemma ProbeBegins(r: RingMachine.State)
    requires Inv(r) && r.ppc.PIdle?
    ensures var t := RingMachine.Step(r, StartProbe);
            && Inv(t) && t.cpc == r.cpc && t.sent == r.sent && t.received == r.received && Probing(t.ppc)
            && (Pushes(r) - ShownPops(r) < SLOT_COUNT ==> WillFit(t))
  {
    StepKeeps(r, StartProbe);
  }

  lemma PopBegins(q: RingMachine.State)
    requires Inv(q) && q.cpc.CIdle?
    ensures var t := RingMachine.Step(q, StartPop);
            && Inv(t) && t.ppc == q.ppc && t.sent == q.sent && t.received == q.received && t.acked == q.acked
            && t.cpc == CSyncProducer && (|q.acked| > |q.received| ==> WillFind(t))
  {
    StepKeeps(q, StartPop);
  }

  // ---------------------------------------------------------------- invariant

  /** Where both rings are at each point of the drain loop. */
  predicate Placed(s: Link)
    requires BothShaped(s)
  {
    var q, r := s.requests, s.responses;
    match s.fw
    case Resting => r.ppc.PIdle? && q.cpc.CIdle?
    case Checking => (Probing(r.ppc) || r.ppc == PIdle(Room) || r.ppc == PIdle(NoRoom)) && q.cpc.CIdle?
    case Taking => r.ppc == PIdle(Room) && (q.cpc.CIdle? ==> q.cpc.last.Got? || q.cpc.last.Empty?)
    case Answering => q.cpc.CIdle? && WillFit(r) && (r.ppc.PIdle? ==> r.ppc.last == PushResult.Ok)
    case Halted => false
  }

  /** The request in the firmware's hands is the last one popped; its reply,
      once computed, is the one that is being pushed. */
  predicate InHand(h: Handler, s: Link, boot: Gpio) {
    var all := s.requests.received;
    && (Held(s) || Owed(s) ==> all != [])
    && (Held(s) ==>
          var pc := s.requests.cpc;
          (if pc.CCleanCounter? then pc.got else pc.last.m) == all[|all| - 1])
    && (Owed(s) ==> Carries(s.responses.ppc, h(all[|all| - 1], PinsAfter(h, Answered(s), boot)).0))
  }

  /** The responses published are the replies to the requests answered. */
  predicate Related(h: Handler, s: Link, boot: Gpio) {
    && s.responses.sent == Replies(h, Answered(s), boot)
    && s.pins == PinsAfter(h, if Held(s) then Answered(s) else s.requests.received, boot)
  }

  ghost predicate Good(h: Handler, s: Link, boot: Gpio) {
    Inv(s.requests) && Inv(s.responses) && BothShaped(s) && Placed(s) && InHand(h, s, boot) && Related(h, s, boot)
  }

  /** One request more is answered. */
  lemma OneMore(h: Handler, ms: seq<Message>, boot: Gpio)
    requires ms != []
    ensures var front, m := ms[..|ms| - 1], ms[|ms| - 1];
            var (reply, pins) := h(m, PinsAfter(h, front, boot));
            Replies(h, ms, boot) == Replies(h, front, boot) + [reply] && PinsAfter(h, ms, boot) == pins
  {
  }

  lemma GoodIsShaped(h: Handler, s: Link, boot: Gpio)
    requires Good(h, s, boot)
    ensures BothShaped(s)
  {
  }

  /** What the firmware relies on is untouched. */
  lemma Untouched(h: Handler, s: Link, boot: Gpio, t: Link)
    requires Good(h, s, boot) && Inv(t.requests) && Inv(t.responses) && BothShaped(t)
    requires t.fw == s.fw && t.pins == s.pins
    requires t.requests.cpc == s.requests.cpc && t.requests.received == s.requests.received
    requires t.responses.ppc == s.responses.ppc && t.responses.sent == s.responses.sent
    requires WillFit(s.responses) ==> WillFit(t.responses)
    ensures Good(h, t, boot) && Answered(t) == Answered(s)
  {
    hide Inv, Shaped, WillFit, Carries, Probing, Replies, PinsAfter;
  }

  lemma RequestsKeep(h: Handler, s: Link, boot: Gpio, l: RingMachine.Label)
    requires Good(h, s, boot) && NotAPop(l)
    ensures Good(h, Relays.Step(h, s, Requests(l)), boot)
    ensures Answered(Relays.Step(h, s, Requests(l))) == Answered(s)
  {
    OthersMove(s.requests, l);
    GoodIsShaped(h, s, boot);
    hide Inv, RingMachine.Step, Shaped, WillFit, Good, Answered;
    Untouched(h, s, boot, Relays.Step(h, s, Requests(l)));
  }

  lemma ResponsesKeep(h: Handler, s: Link, boot: Gpio, l: RingMachine.Label)
    requires Good(h, s, boot) && NotAPush(l)
    ensures Good(h, Relays.Step(h, s, Responses(l)), boot)
    ensures Answered(Relays.Step(h, s, Responses(l))) == Answered(s)
  {
    OthersMove(s.responses, l);
    GoodIsShaped(h, s, boot);
    hide Inv, RingMachine.Step, Shaped, WillFit, Good, Answered;
    Untouched(h, s, boot, Relays.Step(h, s, Responses(l)));
  }

  lemma RestingKeeps(h: Handler, s: Link, boot: Gpio)
    requires Good(h, s, boot) && s.fw.Resting?
    ensures Good(h, Work(h, s), boot) && Answered(Work(h, s)) == Answered(s)
  {
    ProbeBegins(s.responses);
    hide Inv, RingMachine.Step, Shaped, WillFit, Carries, Probing, Replies, PinsAfter;
  }

  lemma CheckingKeeps(h: Handler, s: Link, boot: Gpio)
    requires Good(h, s, boot) && s.fw.Checking?
    ensures Good(h, Work(h, s), boot) && Answered(Work(h, s)) == Answered(s)
  {
    if Probing(s.responses.ppc) {
      ProbeGoesOn(s.responses);
    } else if s.responses.ppc == PIdle(Room) {
      PopBegins(s.requests);
    }
    hide Inv, RingMachine.Step, Shaped, WillFit, Carries, Replies, PinsAfter;
  }

  lemma PoppingKeeps(h: Handler, s: Link, boot: Gpio)
    requires Good(h, s, boot) && s.fw.Taking? && !s.requests.cpc.CIdle?
    ensures Good(h, Work(h, s), boot) && Answered(Work(h, s)) == Answered(s)
  {
    hide Inv, RingMachine.Step, Shaped, WillFit, WillFind, Carries, Probing, Replies, PinsAfter;
    var q := s.requests;
    PopGoesOn(q);
    match q.cpc {
      case CPublish(_, got) => assert (q.received + [got])[..|q.received|] == q.received;
      case CCleanCounter(_) =>
      case _ =>
    }
  }

  lemma HandlingKeeps(h: Handler, s: Link, boot: Gpio)
    requires Good(h, s, boot) && s.fw.Taking? && s.requests.cpc.CIdle? && s.requests.cpc.last.Got? && Brief(h)
    ensures Good(h, Work(h, s), boot) && Answered(Work(h, s)) == Answered(s)
  {
    hide Inv, RingMachine.Step, Shaped, WillFit, Probing, Replies, PinsAfter, Length;
    var q := s.requests;
    var (reply, pins) := h(q.cpc.last.m, s.pins);
    OneMore(h, q.received, boot);
    PushBegins(s.responses, reply);
    NotIdle(RingMachine.Step(s.responses, StartPush(reply)).ppc, reply);
    hide Carries;
  }

  lemma TakingKeeps(h: Handler, s: Link, boot: Gpio)
    requires Good(h, s, boot) && s.fw.Taking? && Brief(h)
    ensures Good(h, Work(h, s), boot) && Answered(Work(h, s)) == Answered(s)
  {
    if !s.requests.cpc.CIdle? {
      PoppingKeeps(h, s, boot);
    } else if s.requests.cpc.last.Got? {
      HandlingKeeps(h, s, boot);
    } else {
      hide Inv, RingMachine.Step, Shaped, WillFit, Carries, Probing, Replies, PinsAfter;
    }
  }

  /** The push that carries the reply goes on; its counter store answers the request. */
  lemma PushingKeeps(h: Handler, s: Link, boot: Gpio)
    requires Good(h, s, boot) && Owed(s)
    ensures Good(h, Work(h, s), boot)
    ensures Answered(Work(h, s)) == if s.responses.ppc.PPublish? then s.requests.received else Answered(s)
  {
    hide Inv, RingMachine.Step, Shaped, WillFit, Probing, Replies, PinsAfter;
    var all := s.requests.received;
    var reply := h(all[|all| - 1], PinsAfter(h, Answered(s), boot)).0;
    OneMore(h, all, boot);
    NotIdle(s.responses.ppc, reply);
    PushGoesOn(s.responses, reply);
    if !s.responses.ppc.PPublish? {
      NotIdle(RingMachine.Step(s.responses, Produce).ppc, reply);
    }
    hide Carries;
  }

  lemma AnsweringKeeps(h: Handler, s: Link, boot: Gpio)
    requires Good(h, s, boot) && s.fw.Answering?
    ensures Good(h, Work(h, s), boot)
    ensures Answered(Work(h, s)) ==
            if Owed(s) && s.responses.ppc.PPublish? then s.requests.received else Answered(s)
  {
    if Owed(s) {
      PushingKeeps(h, s, boot);
    } else {
      if s.responses.ppc.PCleanCounter? {
        PushEnds(s.responses);
      }
      hide Inv, RingMachine.Step, Shaped, Replies, PinsAfter, ShownPops, Carries, Probing;
    }
  }

  /** Every step of the firmware, of Linux and of every cache keeps the invariant. */
  lemma LinkStepKeeps(h: Handler, s: Link, boot: Gpio, l: Relays.Label)
    requires Good(h, s, boot) && Brief(h)
    ensures Good(h, Relays.Step(h, s, l), boot)
  {
    match l
    case Requests(k) =>
      if NotAPop(k) {
        RequestsKeep(h, s, boot, k);
      }
    case Responses(k) =>
      if NotAPush(k) {
        ResponsesKeep(h, s, boot, k);
      }
    case Firmware =>
      match s.fw {
        case Resting => RestingKeeps(h, s, boot);
        case Checking => CheckingKeeps(h, s, boot);
        case Taking => TakingKeeps(h, s, boot);
        case Answering => AnsweringKeeps(h, s, boot);
        case Halted =>
      }
  }

  lemma {:induction false} LinkRunKeeps(h: Handler, s: Link, boot: Gpio, ls: seq<Relays.Label>)
    requires Good(h, s, boot) && Brief(h)
    ensures Good(h, Relays.Run(h, s, ls), boot)
    decreases |ls|
  {
    hide Good, Relays.Step;
    GoodIsShaped(h, s, boot);
    if ls != [] {
      LinkStepKeeps(h, s, boot, ls[0]);
      LinkRunKeeps(h, Relays.Step(h, s, ls[0]), boot, ls[1..]);
    }
  }

  // ---------------------------------------------------------------- theorems

  lemma RelayStarts(h: Handler, s: Link, boot: Gpio)
    requires Relays.Init(s, boot)
    ensures Good(h, s, boot)
  {
  }

  /** The parts of the invariant that a caller sees. */
  lemma GoodMeans(h: Handler, s: Link, boot: Gpio)
    requires Good(h, s, boot)
    ensures Inv(s.requests) && Inv(s.responses) && !s.fw.Halted?
    ensures var taken := Answered(s);
            && s.responses.sent == Replies(h, taken, boot)
            && taken <= s.requests.received <= s.requests.sent && |s.requests.received| <= |taken| + 1
            && (|taken| < |s.requests.received| <==> Held(s) || Owed(s))
            && s.responses.received <= s.responses.sent
  {
    SoundPcs(s.requests);
    SoundPcs(s.responses);
    hide Inv, Shaped, WillFit, Carries, Probing, Replies, PinsAfter;
  }

  /** In every interleaving of single memory accesses of the firmware, of Linux
      and of the caches of both rings, with any handler: the firmware is never
      halted; the requests answered are the first ones that Linux published; the
      responses published are exactly the replies to them, in order, each in the
      state of the pins that the requests before it have left; what Linux has
      received is a prefix of these. At most one request has been taken without
      its response being published. */
  lemma EveryRelayIsInOrder(h: Handler, s: Link, boot: Gpio, ls: seq<Relays.Label>)
    requires Relays.Init(s, boot) && Brief(h)
    ensures var t := Relays.Run(h, s, ls);
            var taken := Answered(t);
            && !t.fw.Halted?
            && taken <= t.requests.received <= t.requests.sent && |t.requests.received| <= |taken| + 1
            && t.responses.sent == Replies(h, taken, boot)
            && t.responses.delivered <= t.responses.received <= t.responses.sent
            && |t.requests.sent| - |t.requests.received| <= SLOT_COUNT
            && |t.responses.sent| - |t.responses.received| <= SLOT_COUNT
  {
    RelayStarts(h, s, boot);
    LinkRunKeeps(h, s, boot, ls);
    var t := Relays.Run(h, s, ls);
    GoodMeans(h, t, boot);
    RingIsFifo(t.requests);
    RingIsFifo(t.responses);
  }

  lemma RingIsFifo(r: RingMachine.State)
    requires Inv(r)
    ensures r.delivered <= r.received <= r.sent && |r.sent| - |r.received| <= SLOT_COUNT
  {
  }

  /** The firmware's counter store finds a place, and so does Linux's. */
  lemma SubmitIsAMove(h: Handler, s: Link, boot: Gpio, l: RingMachine.Label)
    requires Good(h, s, boot) && NotAPop(l)
    ensures Moves(h, boot, Plain(s), Plain(Relays.Step(h, s, Requests(l))))
  {
    GoodMeans(h, s, boot);
    RequestsKeep(h, s, boot, l);
    PublishHasRoom(s.requests);
    InvIsShaped(s.requests);
    StepMoves(s.requests, l);
    hide Good, Inv, Shaped, RingMachine.Step, Replies, Answered, Held, Owed;
    var t := Relays.Step(h, s, Requests(l));
    if l == Produce && s.requests.ppc.PPublish? {
      assert Plain(t) == Plain(s).(submitted := Plain(s).submitted + [s.requests.ppc.m]);
    }
  }

  lemma ReapIsAMove(h: Handler, s: Link, boot: Gpio, l: RingMachine.Label)
    requires Good(h, s, boot) && NotAPush(l)
    ensures Moves(h, boot, Plain(s), Plain(Relays.Step(h, s, Responses(l))))
  {
    GoodMeans(h, s, boot);
    ResponsesKeep(h, s, boot, l);
    PublishHasRoom(s.responses);
    InvIsShaped(s.responses);
    StepMoves(s.responses, l);
    hide Good, Inv, Shaped, RingMachine.Step, Replies, Answered, Held, Owed;
    var t := Relays.Step(h, s, Responses(l));
    if l == Consume && s.responses.cpc.CPublish? {
      var got := s.responses.cpc.got;
      assert got == Replies(h, Answered(s), boot)[|s.responses.received|];
      assert Plain(t) == Plain(s).(reaped := Plain(s).reaped + [got]);
    }
  }

  /** The firmware's steps move no other history than its own. */
  lemma WorkMoves(h: Handler, s: Link, boot: Gpio)
    requires Good(h, s, boot)
    ensures var t := Work(h, s);
            && t.requests.sent == s.requests.sent && t.responses.received == s.responses.received
            && t.requests.received ==
               if s.fw.Taking? && s.requests.cpc.CPublish? then s.requests.received + [s.requests.cpc.got]
               else s.requests.received
  {
    InvIsShaped(s.requests);
    InvIsShaped(s.responses);
    StepMoves(s.requests, StartPop);
    StepMoves(s.requests, Consume);
    StepMoves(s.responses, StartProbe);
    StepMoves(s.responses, Produce);
    if s.fw.Taking? && s.requests.cpc.CIdle? && s.requests.cpc.last.Got? {
      StepMoves(s.responses, StartPush(h(s.requests.cpc.last.m, s.pins).0));
    }
    hide Inv, Shaped, RingMachine.Step, Placed, InHand, Related;
  }

  /** The counter store of the reply answers the request, and nothing else does. */
  lemma WorkAnswers(h: Handler, s: Link, boot: Gpio)
    requires Good(h, s, boot) && Brief(h)
    ensures Good(h, Work(h, s), boot)
    ensures Answered(Work(h, s)) ==
            if Owed(s) && s.responses.ppc.PPublish? then s.requests.received else Answered(s)
  {
    hide Good, Work, Answered;
    match s.fw {
      case Resting => RestingKeeps(h, s, boot);
      case Checking => CheckingKeeps(h, s, boot);
      case Taking => TakingKeeps(h, s, boot);
      case Answering => AnsweringKeeps(h, s, boot);
      case Halted => GoodMeans(h, s, boot);
    }
  }

  lemma WorkIsAMove(h: Handler, s: Link, boot: Gpio)
    requires Good(h, s, boot) && Brief(h)
    ensures Moves(h, boot, Plain(s), Plain(Work(h, s)))
  {
    hide Good, Inv, Replies, Answered, Work;
    GoodMeans(h, s, boot);
    GoodIsShaped(h, s, boot);
    var t := Work(h, s);
    WorkMoves(h, s, boot);
    WorkAnswers(h, s, boot);
    PublishHasRoom(s.requests);
    PublishHasRoom(s.responses);
    if Owed(s) && s.responses.ppc.PPublish? {
      var taken := Answered(s);
      assert t.requests.received == taken + [s.requests.sent[|taken|]];
    }
  }

  /** Refinement: every step of the two rings, their caches, Linux and the
      firmware is a move of a channel of two plain queues, or no move at all. */
  lemma StepIsAMove(h: Handler, s: Link, boot: Gpio, l: Relays.Label)
    requires Good(h, s, boot) && Brief(h)
    ensures Moves(h, boot, Plain(s), Plain(Relays.Step(h, s, l)))
  {
    hide Moves, Good, Work;
    match l
    case Requests(k) =>
      if NotAPop(k) {
        SubmitIsAMove(h, s, boot, k);
      } else {
        NoMove(h, boot, Plain(s));
      }
    case Responses(k) =>
      if NotAPush(k) {
        ReapIsAMove(h, s, boot, k);
      } else {
        NoMove(h, boot, Plain(s));
      }
    case Firmware => WorkIsAMove(h, s, boot);
  }

  lemma NoMove(h: Handler, boot: Gpio, c: Channel)
    ensures Moves(h, boot, c, c)
  {
  }

  // ---------------------------------------------------------------- progress

  /** Steps that the firmware still has to make before it rests. */
  function Left(s: Link): nat
    requires BothShaped(s)
  {
    match s.fw
    case Resting => 0
    case Checking => ProducerLeft(s.responses) + 79
    case Taking => ConsumerLeft(s.requests) + 40
    case Answering => ProducerLeft(s.responses) + 1
    case Halted => 0
  }

  function WorkIn(ls: seq<Relays.Label>): nat {
    if ls == [] then 0 else (if ls[0] == Firmware then 1 else 0) + WorkIn(ls[1..])
  }

  /** The iteration in progress is going to answer a request. */
  predicate WillAnswer(s: Link)
    requires BothShaped(s)
  {
    match s.fw
    case Resting => false
    case Checking => WillFit(s.responses) && |s.requests.acked| > |s.requests.received|
    case Taking => WillFind(s.requests)
    case Answering => Owed(s)
    case Halted => false
  }

  lemma LeftIsBounded(r: RingMachine.State)
    requires Shaped(r)
    ensures ProducerLeft(r) <= 38 && ConsumerLeft(r) <= 38
    ensures r.ppc.PIdle? || ProducerLeft(r) > 0
    ensures r.cpc.CIdle? || ConsumerLeft(r) > 0
  {
  }

  lemma WorkShrinks(h: Handler, s: Link, boot: Gpio)
    requires Good(h, s, boot) && !s.fw.Resting?
    ensures Left(Work(h, s)) < Left(s) <= 117
  {
    hide Inv, Shaped, RingMachine.Step, ProducerLeft, ConsumerLeft, InHand, Related, WillFit, Probing;
    var q, r := s.requests, s.responses;
    LeftIsBounded(q);
    LeftIsBounded(r);
    StepShortens(r, Produce);
    StepShortens(q, Consume);
    LeftIsBounded(RingMachine.Step(q, StartPop));
    if s.fw.Taking? && q.cpc.CIdle? && q.cpc.last.Got? {
      LeftIsBounded(RingMachine.Step(r, StartPush(h(q.cpc.last.m, s.pins).0)));
    }
  }

  /** Linux and the caches leave the firmware where it is. */
  lemma RequestsWait(h: Handler, s: Link, boot: Gpio, l: RingMachine.Label)
    requires Good(h, s, boot) && NotAPop(l)
    ensures var t := Relays.Step(h, s, Requests(l));
            Left(t) == Left(s) && (WillAnswer(s) ==> WillAnswer(t)) && Answered(t) == Answered(s)
  {
    hide Inv, Shaped, RingMachine.Step, WillFit, WillFind, Answered, ProducerLeft, Placed, InHand, Related;
    OthersMove(s.requests, l);
    RequestsKeep(h, s, boot, l);
  }

  lemma ResponsesWait(h: Handler, s: Link, boot: Gpio, l: RingMachine.Label)
    requires Good(h, s, boot) && NotAPush(l)
    ensures var t := Relays.Step(h, s, Responses(l));
            Left(t) == Left(s) && (WillAnswer(s) ==> WillAnswer(t)) && Answered(t) == Answered(s)
  {
    hide Inv, Shaped, RingMachine.Step, WillFit, WillFind, Answered, ConsumerLeft, Placed, InHand, Related;
    OthersMove(s.responses, l);
    ResponsesKeep(h, s, boot, l);
  }

  lemma OthersWait(h: Handler, s: Link, boot: Gpio, l: Relays.Label)
    requires Good(h, s, boot) && l != Firmware
    ensures var t := Relays.Step(h, s, l);
            Left(t) == Left(s) && (WillAnswer(s) ==> WillAnswer(t)) && Answered(t) == Answered(s)
  {
    hide Good, Left, WillAnswer, Answered;
    GoodIsShaped(h, s, boot);
    match l
    case Requests(k) =>
      if NotAPop(k) {
        RequestsWait(h, s, boot, k);
      }
    case Responses(k) =>
      if NotAPush(k) {
        ResponsesWait(h, s, boot, k);
      }
    case Firmware =>
  }

  /** An iteration that is going to answer a request goes on to, or just has. */
  lemma WorkGoesOn(h: Handler, s: Link, boot: Gpio)
    requires Good(h, s, boot) && Brief(h) && WillAnswer(s)
    ensures WillAnswer(Work(h, s)) || |Answered(Work(h, s))| == |Answered(s)| + 1
  {
    hide Inv, Shaped, RingMachine.Step, Replies, PinsAfter;
    var q, r := s.requests, s.responses;
    match s.fw
    case Resting =>
    case Checking =>
      if Probing(r.ppc) {
        ProbeGoesOn(r);
      } else {
        PopBegins(q);
      }
    case Taking =>
      if !q.cpc.CIdle? {
        PopGoesOn(q);
      } else {
        var reply := h(q.cpc.last.m, s.pins).0;
        PushBegins(r, reply);
        NotIdle(RingMachine.Step(r, StartPush(reply)).ppc, reply);
      }
    case Answering =>
      PushingKeeps(h, s, boot);
      var all := q.received;
      PushGoesOn(r, h(all[|all| - 1], PinsAfter(h, Answered(s), boot)).0);
    case Halted =>
  }

  lemma WaitsForSomething(s: Link)
    requires BothShaped(s) && WillAnswer(s)
    ensures Left(s) > 0
  {
    LeftIsBounded(s.requests);
    LeftIsBounded(s.responses);
  }

  lemma AnsweredGrows(h: Handler, s: Link, boot: Gpio, l: Relays.Label)
    requires Good(h, s, boot) && Brief(h)
    ensures |Answered(s)| <= |Answered(Relays.Step(h, s, l))|
  {
    if l == Firmware {
      GoodMeans(h, s, boot);
      WorkAnswers(h, s, boot);
    } else {
      OthersWait(h, s, boot, l);
    }
  }

  lemma StepGoesOn(h: Handler, s: Link, boot: Gpio, l: Relays.Label)
    requires Good(h, s, boot) && Brief(h) && WillAnswer(s)
    ensures var t := Relays.Step(h, s, l);
            || |Answered(t)| > |Answered(s)|
            || (WillAnswer(t) && Left(t) <= Left(s) - if l == Firmware then 1 else 0)
  {
    hide Good, Answered, Left, Work;
    if l == Firmware {
      WorkGoesOn(h, s, boot);
      WorkShrinks(h, s, boot);
    } else {
      OthersWait(h, s, boot, l);
    }
  }

  /** An iteration that is going to answer a request has answered it once the
      firmware has made the steps that are left, whatever the others do. */
  lemma {:induction false} EveryIterationEnds(h: Handler, s: Link, boot: Gpio, ls: seq<Relays.Label>, n: nat)
    requires Good(h, s, boot) && Brief(h) && |Answered(s)| >= n
    requires |Answered(s)| > n || (WillAnswer(s) && Left(s) <= WorkIn(ls))
    ensures |Answered(Relays.Run(h, s, ls))| > n
    decreases |ls|
  {
    hide Good, Relays.Step, WillAnswer, Left, Answered;
    GoodIsShaped(h, s, boot);
    if ls == [] {
      if WillAnswer(s) {
        WaitsForSomething(s);
      }
    } else {
      var t := Relays.Step(h, s, ls[0]);
      LinkStepKeeps(h, s, boot, ls[0]);
      AnsweredGrows(h, s, boot, ls[0]);
      if |Answered(s)| <= n {
        StepGoesOn(h, s, boot, ls[0]);
      }
      EveryIterationEnds(h, t, boot, ls[1..], n);
    }
  }

  lemma IterationBegins(h: Handler, s: Link, boot: Gpio)
    requires Good(h, s, boot) && s.fw.Resting?
    requires |s.requests.acked| > |s.requests.received|
    requires Pushes(s.responses) - ShownPops(s.responses) < SLOT_COUNT
    ensures var t := Work(h, s);
            Good(h, t, boot) && WillAnswer(t) && Left(t) <= 117 && Answered(t) == Answered(s)
  {
    ProbeBegins(s.responses);
    RestingKeeps(h, s, boot);
    WorkShrinks(h, Work(h, s), boot);
  }

  /** The firmware is never held up: when it begins an iteration with an
      acknowledged request unpopped and a place for a response shown by memory,
      it has published one response more after 117 further steps of its own, in
      every interleaving. */
  lemma EveryRequestIsServed(h: Handler, s: Link, boot: Gpio, before: seq<Relays.Label>, after: seq<Relays.Label>)
    requires Relays.Init(s, boot) && Brief(h)
    requires var t := Relays.Run(h, s, before);
             && t.fw.Resting? && |t.requests.acked| > |t.requests.received|
             && Pushes(t.responses) - ShownPops(t.responses) < SLOT_COUNT
    requires WorkIn(after) >= 117
    ensures var t := Relays.Run(h, s, before);
            |Answered(Relays.Run(h, Work(h, t), after))| > |Answered(t)|
  {
    hide Relays.Run, Good, WillAnswer, Left, Answered, Work;
    RelayStarts(h, s, boot);
    LinkRunKeeps(h, s, boot, before);
    var t := Relays.Run(h, s, before);
    IterationBegins(h, t, boot);
    EveryIterationEnds(h, Work(h, t), boot, after, |Answered(t)|);
  }
}
