/** The firmware transport: attach to a Linux generation, drain requests,
    answer each one, while Linux keeps moving its own counters. */
module Transport {
  import opened Wrap
  import opened Shm
  import opened Rings
  import opened App

  const MAGIC: u32 := 0x53475251
  const ABI_VERSION: u32 := 2
  const CONTROL_SIZE: u32 := 0x1000
  const REGION_SIZE: u32 := 0x21000
  const SLOT_SIZE: u32 := 1024
  const REQUEST_OFFSET: u32 := 0x1000
  const RESPONSE_OFFSET: u32 := 0x11000
  const FEATURES: bv32 := 1

  datatype Layout = Layout(
    magic: u32, abiVersion: u32, controlSize: u32, regionSize: u32, slotSize: u32, slotCount: u32,
    requestOffset: u32, responseOffset: u32, generation: u32, features: bv32)

  datatype Peer = Peer(state: u32, generation: u32)

  datatype ProcessResult = ProcessOk | NotReady | ProcessCorrupt

  /** What the Linux side may do between two ring accesses of the firmware. */
  datatype LinuxOp = Submit(m: Slot) | Reap

  /** The Linux moves at the three points of one loop iteration. */
  datatype Interference = Interference(beforeCheck: seq<LinuxOp>, beforePop: seq<LinuxOp>, beforePush: seq<LinuxOp>)

  const QUIET := Interference([], [], [])

  predicate OfferedIn(x: Interference, m: Slot) {
    Submit(m) in x.beforeCheck || Submit(m) in x.beforePop || Submit(m) in x.beforePush
  }

  ghost predicate OfferedDuring(moves: seq<Interference>, m: Slot) {
    exists i :: 0 <= i < |moves| && OfferedIn(moves[i], m)
  }

  // ---------------------------------------------------------------- specification

  predicate Requests(ms: seq<Slot>) {
    forall i :: 0 <= i < |ms| ==> Sendable(ms[i])
  }

  /** The pins after a sequence of requests. */
  function GpioAfter(ms: seq<Slot>, g: Gpio): Gpio
    requires Requests(ms)
  {
    if ms == [] then g else Respond(ms[|ms| - 1], GpioAfter(ms[..|ms| - 1], g)).1
  }

  /** The responses to a sequence of requests, in order. */
  function Replies(ms: seq<Slot>, g: Gpio): (r: seq<Slot>)
    requires Requests(ms)
    ensures |r| == |ms|
  {
    if ms == [] then []
    else
      var before := ms[..|ms| - 1];
      Replies(before, g) + [Respond(ms[|ms| - 1], GpioAfter(before, g)).0]
  }

  /** Response i answers request i alone, in the pin state its predecessors left. */
  lemma {:induction false} ReplyAt(ms: seq<Slot>, g: Gpio, i: nat)
    requires Requests(ms) && i < |ms|
    ensures Replies(ms, g)[i] == Respond(ms[i], GpioAfter(ms[..i], g)).0
    ensures Replies(ms, g)[i].sequence == ms[i].sequence
  {
    hide Respond;
    if i < |ms| - 1 {
      ReplyAt(ms[..|ms| - 1], g, i);
      assert ms[..|ms| - 1][..i] == ms[..i];
    }
  }

  lemma RepliesAreShort(ms: seq<Slot>, g: Gpio)
    requires Requests(ms)
    ensures forall i :: 0 <= i < |ms| ==> Sendable(Replies(ms, g)[i])
  {
    forall i | 0 <= i < |ms| ensures Sendable(Replies(ms, g)[i]) {
      ReplyAt(ms, g, i);
    }
  }

  /** Moving the head of a queue to the end of a history keeps their sum. */
  lemma MoveOne(all: seq<Slot>, done: seq<Slot>, queue: seq<Slot>, m: Slot, rest: seq<Slot>)
    requires all == done + queue && queue == [m] + rest
    ensures all == done + [m] + rest && |done| < |all| && all[|done|] == m
  {
  }

  lemma RepliesSnoc(ms: seq<Slot>, m: Slot, g: Gpio)
    requires Requests(ms) && Sendable(m)
    ensures Requests(ms + [m])
    ensures Replies(ms + [m], g) == Replies(ms, g) + [Respond(m, GpioAfter(ms, g)).0]
    ensures GpioAfter(ms + [m], g) == Respond(m, GpioAfter(ms, g)).1
  {
    assert (ms + [m])[..|ms|] == ms;
  }

  // ---------------------------------------------------------------- the channel without its rings

  /** The histories of one generation, and the pins when it began. */
  datatype Generation = Generation(submitted: seq<Slot>, taken: seq<Slot>, reaped: seq<Slot>, boot: Gpio)

  predicate Legal(g: Generation) {
    Requests(g.submitted) && g.taken <= g.submitted
  }

  lemma TakenIsLegal(g: Generation)
    requires Legal(g)
    ensures Requests(g.taken)
  {
    forall i | 0 <= i < |g.taken| ensures Sendable(g.taken[i]) {
      assert g.taken[i] == g.submitted[i];
    }
  }

  /** A move of Linux in a channel of two queues of 64 places; `popped` requests
      have left theirs and are not answered yet. */
  function AfterMove(g: Generation, popped: nat, op: LinuxOp): (r: Generation)
    requires Legal(g)
    ensures Legal(r) && r.taken == g.taken && r.boot == g.boot
    ensures g.submitted <= r.submitted && g.reaped <= r.reaped
  {
    match op
    case Submit(m) =>
      if Sendable(m) && |g.submitted| < |g.taken| + popped + SLOT_COUNT then g.(submitted := g.submitted + [m]) else g
    case Reap =>
      TakenIsLegal(g);
      if |g.reaped| < |g.taken| then g.(reaped := g.reaped + [Replies(g.taken, g.boot)[|g.reaped|]]) else g
  }

  function AfterTurn(g: Generation, popped: nat, ops: seq<LinuxOp>): (r: Generation)
    requires Legal(g)
    ensures Legal(r) && r.taken == g.taken && r.boot == g.boot
    ensures g.submitted <= r.submitted && g.reaped <= r.reaped
  {
    if ops == [] then g else AfterMove(AfterTurn(g, popped, ops[..|ops| - 1]), popped, ops[|ops| - 1])
  }

  /** One iteration of the drain loop, if there is room for a response: the
      oldest request that is there at the second look is answered. */
  function AfterServing(g: Generation, x: Interference): (r: (Generation, bool))
    requires Legal(g)
    ensures Legal(r.0) && r.0.boot == g.boot
  {
    var a := AfterTurn(g, 0, x.beforeCheck);
    if |a.taken| == |a.reaped| + SLOT_COUNT then (a, false)
    else
      var b := AfterTurn(a, 0, x.beforePop);
      if |b.submitted| == |b.taken| then (b, false)
      else
        var c := AfterTurn(b, 1, x.beforePush);
        (c.(taken := c.taken + [b.submitted[|b.taken|]]), true)
  }

  /** The drain loop from its k-th iteration on. */
  function AfterDrain(g: Generation, moves: seq<Interference>, k: nat): (r: Generation)
    requires Legal(g) && k <= SLOT_COUNT
    ensures Legal(r) && r.boot == g.boot
    decreases SLOT_COUNT - k
  {
    if k == SLOT_COUNT then g
    else
      var (h, answered) := AfterServing(g, if k < |moves| then moves[k] else QUIET);
      if answered then AfterDrain(h, moves, k + 1) else h
  }

  predicate LayoutIsValid(layout: Layout) {
    && layout.magic == MAGIC && layout.abiVersion == ABI_VERSION && layout.controlSize == CONTROL_SIZE
    && layout.regionSize == REGION_SIZE && layout.slotSize == SLOT_SIZE && layout.slotCount == SLOT_COUNT
    && layout.requestOffset == REQUEST_OFFSET && layout.responseOffset == RESPONSE_OFFSET
    && layout.features & FEATURES == FEATURES
  }

  /** A layout with any one field wrong is not attached to. */
  lemma NoOtherLayout(layout: Layout, linux: Peer)
    ensures Attachable(layout, linux) <==>
              && layout.magic == 0x53475251 && layout.abiVersion == 2 && layout.controlSize == 4096
              && layout.regionSize == 4096 + 2 * 64 * 1024 && layout.slotSize == 1024 && layout.slotCount == 64
              && layout.requestOffset == 4096 && layout.responseOffset == 4096 + 64 * 1024
              && layout.features & 1 == 1
              && layout.generation != 0 && linux.state == 1 && linux.generation == layout.generation
  {
  }

  /** Linux has published a complete, consistent, nonzero generation. */
  predicate Attachable(layout: Layout, linux: Peer) {
    && layout.generation != 0 && LayoutIsValid(layout)
    && linux == Peer(STATE_READY, layout.generation)
  }

  // ---------------------------------------------------------------- the transport

  datatype Served = Answered | NothingToDo | Broken

  /** What the rings hold, the requests answered so far, and the pins. */
  datatype Channel = Channel(requests: seq<Slot>, responses: seq<Slot>, taken: seq<Slot>, gpio: Gpio)

  class ShmTransport {
    var layout: Layout
    var linuxPeer: Peer
    var rtosPeer: Peer
    var activeGeneration: u32
    var gpio: Gpio
    const requestRing: Ring
    const responseRing: Ring
    const responsePayload: array<bv8>

    // Histories of the current generation: requests pushed by Linux, requests
    // the firmware has popped and answered, the request it has popped and not
    // yet answered, responses pushed by the firmware, responses popped by
    // Linux, and the pins when the generation began.
    ghost var submitted: seq<Slot>
    ghost var taken: seq<Slot>
    ghost var held: seq<Slot>
    ghost var answered: seq<Slot>
    ghost var reaped: seq<Slot>
    ghost var boot: Gpio

    ghost predicate Valid() {
      && requestRing.Valid() && responseRing.Valid()
      && requestRing != responseRing && requestRing.slots != responseRing.slots
      && responsePayload.Length == PAYLOAD_SIZE
    }

    ghost predicate RequestsLinked()
      reads this`submitted, this`taken, this`held, requestRing, requestRing.slots
    {
      requestRing.Honest() && Requests(submitted) && submitted == taken + held + requestRing.Contents()
    }

    ghost predicate ResponsesLinked()
      reads this`answered, this`reaped, responseRing, responseRing.slots
    {
      responseRing.Honest() && answered == reaped + responseRing.Contents()
    }

    ghost predicate Answering()
      reads this`taken, this`answered, this`gpio, this`boot
    {
      Requests(taken) && answered == Replies(taken, boot) && gpio == GpioAfter(taken, boot)
    }

    /** Both rings carry exactly the unconsumed part of the histories, and the
        responses are the replies to the requests taken so far. */
    ghost predicate Linked()
      reads this`submitted, this`taken, this`held, this`answered, this`reaped, this`gpio, this`boot
      reads requestRing, responseRing, requestRing.slots, responseRing.slots
    {
      Valid() && RequestsLinked() && ResponsesLinked() && Answering()
    }

    ghost function History(): Generation
      reads this`submitted, this`taken, this`reaped, this`boot
    {
      Generation(submitted, taken, reaped, boot)
    }

    lemma HistoryIsLegal()
      requires Linked()
      ensures Legal(History()) && answered == Replies(taken, boot)
    {
    }

    constructor (g: Gpio)
      ensures Linked() && fresh(requestRing) && fresh(responseRing)
      ensures fresh(requestRing.slots) && fresh(responseRing.slots) && fresh(responsePayload)
      ensures submitted == taken == held == answered == reaped == [] && activeGeneration == 0
    {
      layout := Layout(0, 0, 0, 0, 0, 0, 0, 0, 0, 0);
      linuxPeer, rtosPeer := Peer(STATE_OFFLINE, 0), Peer(STATE_OFFLINE, 0);
      activeGeneration, gpio, boot := 0, g, g;
      requestRing := new Ring(0);
      responseRing := new Ring(0);
      responsePayload := new bv8[PAYLOAD_SIZE](_ => 0);
      submitted, taken, held, answered, reaped := [], [], [], [], [];
    }

    /** Linux clears the region and publishes a generation of its own. */
    method LinuxRestart(generation: u32)
      requires Valid()
      modifies this`layout, this`linuxPeer, this`rtosPeer, requestRing, responseRing
      modifies this`submitted, this`taken, this`held, this`answered, this`reaped, this`boot
      ensures Linked() && submitted == taken == held == answered == reaped == [] && boot == gpio
      ensures rtosPeer == Peer(STATE_OFFLINE, 0)
      ensures Attachable(layout, linuxPeer) <==> generation != 0
    {
      layout := Layout(MAGIC, ABI_VERSION, CONTROL_SIZE, REGION_SIZE, SLOT_SIZE, SLOT_COUNT,
                       REQUEST_OFFSET, RESPONSE_OFFSET, generation, FEATURES);
      linuxPeer, rtosPeer := Peer(STATE_READY, generation), Peer(STATE_OFFLINE, 0);
      requestRing.producer, requestRing.consumer := 0, 0;
      responseRing.producer, responseRing.consumer := 0, 0;
      submitted, taken, held, answered, reaped, boot := [], [], [], [], [], gpio;
    }

    /** Linux pushes one request; a full ring or an oversized length refuses it. */
    method LinuxSubmit(m: Slot) returns (r: RingResult)
      requires Valid()
      modifies requestRing`producer, requestRing.slots, this`submitted
      ensures Valid()
      ensures old(Linked()) ==> Linked()
      ensures requestRing.Honest() <==> old(requestRing.Honest())
      ensures submitted == if r == RingResult.Ok then old(submitted) + [m] else old(submitted)
      ensures old(Linked()) ==>
                (r == RingResult.Ok <==> Sendable(m) && |old(submitted)| < |taken| + |held| + SLOT_COUNT)
    {
      hide Respond, QueueOf, Sub32;
      r := requestRing.TryPush(m);
      if r == RingResult.Ok {
        submitted := submitted + [m];
      }
    }

    /** Pops one response; a response with a legal length is reaped. */
    method PopResponse() returns (r: RingResult, m: Slot)
      requires Valid()
      modifies responseRing`consumer, this`reaped
      ensures Valid()
      ensures old(ResponsesLinked()) && (forall i :: |old(reaped)| <= i < |answered| ==> Sendable(answered[i]))
              ==> && ResponsesLinked()
                  && (if |old(reaped)| < |answered| then r == RingResult.Ok &&
                      m == answered[|old(reaped)|] else r == RingResult.Empty)
      ensures reaped == if r == RingResult.Ok then old(reaped) + [m] else old(reaped)
      ensures responseRing.Honest() <==> old(responseRing.Honest())
      ensures responseRing.Honest() ==> responseRing.Occupancy() <= old(responseRing.Occupancy())
    {
      ghost var before := responseRing.Occupancy();
      ghost var was := if before <= SLOT_COUNT then responseRing.Contents() else [];
      ghost var linked := ResponsesLinked();
      r, m := responseRing.TryPop();
      if linked && was != [] {
        MoveOne(answered, reaped, was, m, responseRing.Contents());
      }
      if r == RingResult.Ok {
        reaped := reaped + [m];
      }
    }

    /** Linux pops one response: the oldest it has not reaped. */
    method LinuxReap() returns (r: RingResult, m: Slot)
      requires Valid()
      modifies responseRing`consumer, this`reaped
      ensures Valid()
      ensures old(Linked()) ==>
                && Linked()
                && (if |old(reaped)| < |answered| then r == RingResult.Ok &&
                    m == answered[|old(reaped)|] else r == RingResult.Empty)
      ensures reaped == if r == RingResult.Ok then old(reaped) + [m] else old(reaped)
      ensures responseRing.Honest() <==> old(responseRing.Honest())
      ensures responseRing.Honest() ==> responseRing.Occupancy() <= old(responseRing.Occupancy())
    {
      hide Respond, QueueOf;
      if Linked() {
        RepliesAreShort(taken, boot);
      }
      r, m := PopResponse();
    }

    method LinuxMove(op: LinuxOp)
      requires Valid()
      modifies requestRing`producer, requestRing.slots, responseRing`consumer, this`submitted, this`reaped
      ensures Valid()
      ensures old(Linked()) ==>
                && Linked() && Legal(old(History())) && History() == AfterMove(old(History()), |held|, op)
      ensures old(submitted) <= submitted && old(reaped) <= reaped
      ensures requestRing.Honest() <==> old(requestRing.Honest())
      ensures responseRing.Honest() <==> old(responseRing.Honest())
      ensures responseRing.Honest() ==> responseRing.Occupancy() <= old(responseRing.Occupancy())
      ensures forall m :: m in submitted ==> m in old(submitted) || Submit(m) == op
    {
      hide Linked, Replies, QueueOf, Sub32;
      if Linked() {
        HistoryIsLegal();
      }
      match op {
        case Submit(m) => var r := LinuxSubmit(m);
        case Reap =>
          var r, m := LinuxReap();
      }
    }

    /** Any moves of the Linux side: it only produces requests and consumes responses. */
    method LinuxTurn(ops: seq<LinuxOp>)
      requires Valid()
      modifies requestRing`producer, requestRing.slots, responseRing`consumer, this`submitted, this`reaped
      ensures Valid()
      ensures old(Linked()) ==> Linked()
      ensures old(submitted) <= submitted && old(reaped) <= reaped
      ensures responseRing.Honest() <==> old(responseRing.Honest())
      ensures responseRing.Honest() ==> responseRing.Occupancy() <= old(responseRing.Occupancy())
      ensures ops == [] ==> submitted == old(submitted) && reaped == old(reaped)
      ensures ops == [] ==> unchanged(requestRing) && unchanged(requestRing.slots) && unchanged(responseRing)
      ensures requestRing.Honest() <==> old(requestRing.Honest())
      ensures forall m :: m in submitted ==> m in old(submitted) || Submit(m) in ops
      ensures old(Linked()) ==> Legal(old(History())) && History() == AfterTurn(old(History()), |held|, ops)
    {
      hide Linked, AfterMove, QueueOf, Sub32;
      ghost var linked := Linked();
      ghost var was := History();
      if linked {
        HistoryIsLegal();
      }
      for i := 0 to |ops|
        invariant Valid()
        invariant linked ==> Linked()
        invariant linked ==> Legal(was) && History() == AfterTurn(was, |held|, ops[..i])
        invariant old(submitted) <= submitted && old(reaped) <= reaped
        invariant ops == [] ==> submitted == old(submitted) && reaped == old(reaped)
        invariant ops == [] ==> unchanged(requestRing) && unchanged(requestRing.slots) && unchanged(responseRing)
        invariant requestRing.Honest() <==> old(requestRing.Honest())
        invariant forall m :: m in submitted ==> m in old(submitted) || Submit(m) in ops
        invariant responseRing.Honest() <==> old(responseRing.Honest())
        invariant responseRing.Honest() ==> responseRing.Occupancy() <= old(responseRing.Occupancy())
      {
        assert ops[..i + 1][..i] == ops[..i];
        LinuxMove(ops[i]);
      }
      assert ops[..|ops|] == ops;
    }

    lemma LinkedBounds()
      requires Linked() && held == []
      ensures Valid() && Requests(taken) && answered == Replies(taken, boot)
      ensures taken <= submitted && |submitted| - |taken| <= SLOT_COUNT
      ensures reaped <= answered && |answered| - |reaped| <= SLOT_COUNT && |answered| == |taken|
    {
    }

    method PublishRtosState(state: u32, generation: u32)
      modifies this`rtosPeer
      ensures rtosPeer == Peer(state, generation)
    {
      rtosPeer := Peer(state, generation);
    }

    /** Binding the rings to the region is done once, by the constructor. */
    method Attach() returns (attached: bool)
      modifies this`activeGeneration, this`rtosPeer
      ensures attached <==> Attachable(layout, linuxPeer)
      ensures !attached ==> unchanged(this)
      ensures attached ==> activeGeneration == layout.generation
      ensures attached && old(activeGeneration) == layout.generation ==> rtosPeer == old(rtosPeer)
      ensures attached && old(activeGeneration) != layout.generation ==>
                rtosPeer == Peer(STATE_READY, layout.generation)
    {
      var generation := layout.generation;
      if generation == 0 || !LayoutIsValid(layout) || linuxPeer.state != STATE_READY
         || linuxPeer.generation != generation {
        return false;
      }
      if activeGeneration == generation {
        return true;
      }
      activeGeneration := generation;
      PublishRtosState(STATE_READY, generation);
      return true;
    }

    method MarkCorrupt() returns (r: ProcessResult)
      modifies this`rtosPeer
      ensures r == ProcessCorrupt && rtosPeer == Peer(STATE_ERROR, activeGeneration)
    {
      PublishRtosState(STATE_ERROR, activeGeneration);
      return ProcessCorrupt;
    }

    /** Runs the application on one request and builds the response slot. */
    method BuildResponse(request: Slot) returns (response: Slot)
      requires Valid() && Sendable(request)
      modifies responsePayload, this`gpio
      ensures Valid()
      ensures (response, gpio) == Respond(request, old(gpio))
    {
      forall i | 0 <= i < PAYLOAD_SIZE {
        responsePayload[i] := 0;
      }
      assert responsePayload[..] == Padded([]);
      var handled, length, g := HandleMessage(request.payload, request.length, responsePayload, PAYLOAD_SIZE, gpio);
      gpio := g;
      if !handled {
        length := 0;
      }
      ghost var bytes := responsePayload[..length];
      assert responsePayload[..] == Padded(bytes);
      response := RawSlot(request.sequence, length, responsePayload[..]);
    }

    /** Pops the next request; one with a legal length is held. */
    method PopRequest() returns (outcome: Served, request: Slot)
      requires Valid() && held == []
      modifies requestRing`consumer, this`held
      ensures Valid()
      ensures outcome == NothingToDo ==> unchanged(this) && unchanged(requestRing)
      ensures outcome == NothingToDo <==> old(requestRing.Occupancy()) == 0
      ensures old(requestRing.Occupancy()) > SLOT_COUNT ==> outcome == Broken && !requestRing.Honest()
      ensures 0 < old(requestRing.Occupancy()) <= SLOT_COUNT ==>
                && requestRing.Honest() && [request] + requestRing.Contents() == old(requestRing.Contents())
                && outcome == if Sendable(request) then Answered else Broken
      ensures old(RequestsLinked()) ==>
                && RequestsLinked() && outcome != Broken
                && (outcome == Answered ==> |taken| < |submitted| && request == submitted[|taken|])
      ensures if outcome == Answered then Sendable(request) && held == [request] else held == []
    {
      hide Sub32, QueueOf;
      ghost var before := requestRing.Occupancy();
      ghost var was := if before <= SLOT_COUNT then requestRing.Contents() else [];
      ghost var linked := RequestsLinked();
      var r;
      r, request := requestRing.TryPop();
      if linked && was != [] {
        MoveOne(submitted, taken, was, request, requestRing.Contents());
      }
      if r == RingResult.Empty {
        return NothingToDo, request;
      }
      if r != RingResult.Ok {
        return Broken, request;
      }
      held := [request];
      outcome := Answered;
    }

    method TakeRequest() returns (outcome: Served, request: Slot)
      requires Valid() && held == []
      modifies requestRing`consumer, this`held
      ensures Valid()
      ensures outcome == NothingToDo ==> unchanged(this) && unchanged(requestRing)
      ensures outcome == NothingToDo <==> old(requestRing.Occupancy()) == 0
      ensures old(requestRing.Occupancy()) > SLOT_COUNT ==> outcome == Broken && !requestRing.Honest()
      ensures 0 < old(requestRing.Occupancy()) <= SLOT_COUNT ==>
                && requestRing.Honest() && [request] + requestRing.Contents() == old(requestRing.Contents())
                && outcome == if Sendable(request) then Answered else Broken
      ensures old(Linked()) ==>
                && Linked() && outcome != Broken
                && (outcome == NothingToDo <==> |submitted| == |taken|)
                && (outcome == Answered ==> |taken| < |submitted| && request == submitted[|taken|])
      ensures if outcome == Answered then Sendable(request) && held == [request] else held == []
    {
      hide Replies, GpioAfter, QueueOf;
      outcome, request := PopRequest();
    }

    /** Answers the held request. */
    method PutResponse(request: Slot) returns (outcome: Served)
      requires Valid() && Sendable(request) && held == [request]
      modifies responseRing`producer, responseRing.slots, responsePayload
      modifies this`gpio, this`taken, this`held, this`answered
      ensures Valid() && outcome != NothingToDo
      ensures old(responseRing.Honest()) <==> responseRing.Honest()
      ensures outcome == Answered <==> old(responseRing.Occupancy()) < SLOT_COUNT
      ensures outcome == Broken ==> taken == old(taken)
      ensures held == []
      ensures outcome == Answered ==>
                && taken == old(taken) + [request]
                && answered == old(answered) + [Respond(request, old(gpio)).0]
                && gpio == Respond(request, old(gpio)).1
                && responseRing.Contents() == old(responseRing.Contents()) + [Respond(request, old(gpio)).0]
    {
      var response := BuildResponse(request);
      var r := responseRing.TryPush(response);
      held := [];
      if r != RingResult.Ok {
        return Broken;
      }
      taken, answered := taken + [request], answered + [response];
      outcome := Answered;
    }

    /** The room that can_push saw is still there, so the reply always fits. */
    method Finish(request: Slot) returns (outcome: Served)
      requires Valid() && Sendable(request) && held == [request]
      modifies responseRing`producer, responseRing.slots, responsePayload
      modifies this`gpio, this`taken, this`held, this`answered
      ensures Valid()
      ensures old(Linked()) && old(responseRing.Occupancy()) < SLOT_COUNT ==>
                Linked() && outcome == Answered && held == [] && taken == old(taken) + [request]
      ensures held == [] && (outcome == Answered || outcome == Broken)
      ensures outcome == Answered <==> old(responseRing.Occupancy()) < SLOT_COUNT
      ensures outcome == Broken ==> taken == old(taken)
      ensures outcome == Answered ==>
                && taken == old(taken) + [request] && gpio == Respond(request, old(gpio)).1
                && responseRing.Honest()
                && responseRing.Contents() == old(responseRing.Contents()) + [Respond(request, old(gpio)).0]
    {
      hide Respond;
      if Linked() {
        RepliesSnoc(taken, request, boot);
      }
      outcome := PutResponse(request);
    }

    /** can_push on the response ring, and whatever Linux does around it; room
        that was seen is not lost. */
    method AwaitRoom(x: Interference) returns (outcome: Served)
      requires Valid()
      modifies requestRing`producer, requestRing.slots, responseRing`consumer, this`submitted, this`reaped
      ensures Valid()
      ensures old(Linked()) ==> Linked() && outcome != Broken
      ensures old(submitted) <= submitted && old(reaped) <= reaped
      ensures outcome == Broken <==> !old(responseRing.Honest())
      ensures outcome == Broken ==> !responseRing.Honest()
      ensures outcome == Answered ==> responseRing.Occupancy() < SLOT_COUNT
      ensures old(responseRing.Occupancy()) < SLOT_COUNT ==> outcome == Answered
      ensures requestRing.Honest() <==> old(requestRing.Honest())
      ensures x == QUIET ==>
                && unchanged(requestRing) && unchanged(requestRing.slots) && unchanged(responseRing)
                && (outcome == NothingToDo <==> old(responseRing.Occupancy()) == SLOT_COUNT)
      ensures forall m :: m in submitted ==> m in old(submitted) || OfferedIn(x, m)
      ensures x == QUIET ==> submitted == old(submitted) && reaped == old(reaped)
      ensures old(Linked()) && x == QUIET && outcome == NothingToDo ==> |taken| == |reaped| + SLOT_COUNT
      ensures old(Linked()) && held == [] ==>
                && Legal(old(History()))
                && var a := AfterTurn(old(History()), 0, x.beforeCheck);
                   if |a.taken| == |a.reaped| + SLOT_COUNT then outcome == NothingToDo && History() == a
                   else outcome == Answered && History() == AfterTurn(a, 0, x.beforePop)
    {
      hide Respond, AfterTurn;
      LinuxTurn(x.beforeCheck);
      var answer := responseRing.CanPush();
      if answer < 0 {
        return Broken;
      }
      if answer == 0 {
        return NothingToDo;
      }
      LinuxTurn(x.beforePop);
      return Answered;
    }

    /** Both rings, the requests answered, and the pins. */
    ghost function Snapshot(): Channel
      requires requestRing.Honest() && responseRing.Honest()
      reads this`taken, this`gpio, requestRing, responseRing, requestRing.slots, responseRing.slots
    {
      Channel(requestRing.Contents(), responseRing.Contents(), taken, gpio)
    }

    /** One iteration of the drain loop: check for room, pop, answer, push. */
    method ServeOne(x: Interference) returns (outcome: Served)
      requires Valid() && held == []
      modifies this`submitted, this`taken, this`held, this`answered, this`reaped, this`gpio
      modifies requestRing, responseRing, requestRing.slots, responseRing.slots, responsePayload
      ensures Valid()
      ensures old(Linked()) ==>
                && Linked() && outcome != Broken
                && old(submitted) <= submitted && old(reaped) <= reaped
      ensures old(taken) <= taken && |taken| == |old(taken)| + if outcome == Answered then 1 else 0
      ensures held == []
      ensures old(Linked()) && x == QUIET ==>
                && submitted == old(submitted) && reaped == old(reaped)
                && (outcome == NothingToDo ==> |submitted| == |taken| || |taken| == |reaped| + SLOT_COUNT)
      ensures x == QUIET && old(requestRing.Honest()) && old(responseRing.Honest()) ==>
                requestRing.Honest() && responseRing.Honest() && ServedQuietly(old(Snapshot()), outcome, Snapshot())
      ensures !old(responseRing.Honest()) ==> outcome == Broken && taken == old(taken)
      ensures !old(requestRing.Honest()) ==> outcome != Answered && !requestRing.Honest()
      ensures !old(requestRing.Honest()) && old(responseRing.Occupancy()) < SLOT_COUNT ==> outcome == Broken
      ensures forall m :: m in submitted ==> m in old(submitted) || OfferedIn(x, m)
      ensures old(Linked()) ==>
                Legal(old(History())) && (History(), outcome == Answered) == AfterServing(old(History()), x)
    {
      hide Linked, Respond, QueueOf, Sub32, AfterTurn;
      outcome := AwaitRoom(x);
      if outcome != Answered {
        return;
      }
      var request;
      outcome, request := TakeRequest();
      if outcome != Answered {
        return;
      }
      LinuxTurn(x.beforePush);
      outcome := Finish(request);
    }

    /** The drain loop: at most 64 requests, Linux making the moves `moves[i]`
        during iteration i. Undisturbed, it ends at the first request with an
        illegal length, unless requests or room run out before. */
    method Drain(moves: seq<Interference>) returns (corrupt: bool, count: nat)
      requires Valid() && held == []
      modifies this`submitted, this`taken, this`held, this`answered, this`reaped, this`gpio
      modifies requestRing, responseRing, requestRing.slots, responseRing.slots, responsePayload
      ensures Valid() && held == [] && count <= SLOT_COUNT
      ensures old(Linked()) ==>
                && Linked() && !corrupt
                && old(submitted) <= submitted && old(reaped) <= reaped
      ensures old(taken) <= taken && |taken| == |old(taken)| + count
      ensures old(Linked()) && moves == [] ==>
                && submitted == old(submitted) && reaped == old(reaped)
                && (count == SLOT_COUNT || |submitted| == |taken| || |taken| == |reaped| + SLOT_COUNT)
      ensures moves == [] && old(requestRing.Honest()) && old(responseRing.Honest()) ==>
                && requestRing.Honest() && responseRing.Honest()
                && DrainedQuietly(old(Snapshot()), count, corrupt, Snapshot())
                && count == Answerable(old(Snapshot())) && (corrupt <==> IllegalInReach(old(Snapshot())))
      ensures !old(responseRing.Honest()) ==> corrupt && taken == old(taken)
      ensures !old(requestRing.Honest()) ==> count == 0
      ensures !old(requestRing.Honest()) && old(responseRing.Occupancy()) < SLOT_COUNT ==> corrupt
      ensures forall m :: m in submitted ==> m in old(submitted) || OfferedDuring(moves, m)
      ensures old(Linked()) ==> Legal(old(History())) && History() == AfterDrain(old(History()), moves, 0)
    {
      hide Linked, Respond, Replies, GpioAfter, QueueOf, Sub32, ServedQuietly, DrainedQuietly, Answerable,
          IllegalInReach, AfterServing;
      ghost var linked := Linked();
      ghost var was := History();
      if linked {
        HistoryIsLegal();
      }
      ghost var quiet := moves == [] && requestRing.Honest() && responseRing.Honest();
      ghost var start := if quiet then Snapshot() else Channel([], [], [], gpio);
      count := 0;
      DrainStarts(start);
      while count < SLOT_COUNT
        invariant count <= SLOT_COUNT && Valid() && held == []
        invariant old(taken) <= taken && |taken| == |old(taken)| + count
        invariant linked ==>
                    && Linked()
                    && old(submitted) <= submitted && old(reaped) <= reaped
        invariant linked ==>
                    && Legal(was) && Legal(History())
                    && AfterDrain(was, moves, 0) == AfterDrain(History(), moves, count)
        invariant linked && moves == [] ==> submitted == old(submitted) && reaped == old(reaped)
        invariant quiet ==>
                    requestRing.Honest() && responseRing.Honest() && DrainedQuietly(start, count, false, Snapshot())
        invariant !old(responseRing.Honest()) ==> count == 0 && taken == old(taken) && !responseRing.Honest()
        invariant !old(requestRing.Honest()) ==> count == 0 && !requestRing.Honest()
        invariant count == 0 ==> responseRing.Occupancy() == old(responseRing.Occupancy())
        invariant forall m :: m in submitted ==> m in old(submitted) || OfferedDuring(moves, m)
      {
        ghost var before := if quiet then Snapshot() else start;
        var outcome := ServeOne(if count < |moves| then moves[count] else QUIET);
        if quiet {
          DrainGoesOn(start, count, before, outcome, Snapshot());
        }
        if outcome == Broken {
          return true, count;
        }
        if outcome == NothingToDo {
          return false, count;
        }
        count := count + 1;
      }
      if quiet {
        DrainIsFull(start, Snapshot());
      }
      corrupt := false;
    }

    /** sg2002_rtos_shm_process: attach, then drain. A failed drain publishes
        the error state and reports that nothing was processed, also when it has
        answered requests before it failed. */
    method Process(moves: seq<Interference>) returns (r: ProcessResult, processed: nat)
      requires Valid() && held == []
      modifies this`activeGeneration, this`rtosPeer
      modifies this`submitted, this`taken, this`held, this`answered, this`reaped, this`gpio
      modifies requestRing, responseRing, requestRing.slots, responseRing.slots, responsePayload
      ensures Valid() && held == []
      ensures r == NotReady <==> !Attachable(layout, linuxPeer)
      ensures r == NotReady ==> unchanged(this) && unchanged(requestRing) && unchanged(responseRing)
      ensures old(Linked()) ==>
                && Linked() && r != ProcessCorrupt
                && old(submitted) <= submitted && old(reaped) <= reaped
      ensures old(taken) <= taken && |taken| <= |old(taken)| + SLOT_COUNT
      ensures processed == if r == ProcessOk then |taken| - |old(taken)| else 0
      ensures old(Linked()) && r == ProcessOk && moves == [] ==>
                && submitted == old(submitted) && reaped == old(reaped)
                && (|submitted| == |taken| || |taken| == |reaped| + SLOT_COUNT)
      ensures r != NotReady && moves == [] && old(requestRing.Honest()) && old(responseRing.Honest()) ==>
                && requestRing.Honest() && responseRing.Honest()
                && DrainedQuietly(old(Snapshot()), |taken| - |old(taken)|, r == ProcessCorrupt, Snapshot())
                && |taken| - |old(taken)| == Answerable(old(Snapshot()))
                && (r == ProcessCorrupt <==> IllegalInReach(old(Snapshot())))
      ensures r != NotReady && !old(responseRing.Honest()) ==> r == ProcessCorrupt && taken == old(taken)
      ensures r != NotReady && !old(requestRing.Honest()) && old(responseRing.Occupancy()) < SLOT_COUNT ==>
                r == ProcessCorrupt && taken == old(taken)
      ensures r != NotReady ==> activeGeneration == layout.generation
      ensures r == ProcessCorrupt ==> rtosPeer == Peer(STATE_ERROR, layout.generation)
      ensures r == ProcessOk ==>
                rtosPeer == if old(activeGeneration) == layout.generation then old(rtosPeer)
                            else Peer(STATE_READY, layout.generation)
      ensures forall m :: m in submitted ==> m in old(submitted) || OfferedDuring(moves, m)
      ensures old(Linked()) ==>
                && Legal(old(History()))
                && History() == if r == NotReady then old(History()) else AfterDrain(old(History()), moves, 0)
    {
      hide Linked, Attachable, AfterDrain, DrainedQuietly, Answerable, IllegalInReach, QueueOf, Sub32;
      ghost var linked := Linked();
      if linked {
        LinkedBounds();
        HistoryIsLegal();
      }
      var attached := Attach();
      if !attached {
        return NotReady, 0;
      }
      var corrupt;
      corrupt, processed := Drain(moves);
      if corrupt {
        r := MarkCorrupt();
        return r, 0;
      }
      if linked {
        LinkedBounds();
      }
      r := ProcessOk;
    }
  }

  // ---------------------------------------------------------------- undisturbed processing

  function IllegalFrom(q: seq<Slot>, i: nat): (n: nat)
    requires i <= |q|
    ensures i <= n <= |q| && (forall j :: i <= j < n ==> Sendable(q[j])) && (n < |q| ==> !Sendable(q[n]))
    decreases |q| - i
  {
    if i == |q| || !Sendable(q[i]) then i else IllegalFrom(q, i + 1)
  }

  /** The place of the first request with an illegal length, or the end. */
  function FirstIllegal(q: seq<Slot>): nat {
    IllegalFrom(q, 0)
  }

  function Least(a: int, b: int): int {
    if a < b then a else b
  }

  /** The requests that there are, as far as there is room to answer them. */
  function InReach(c: Channel): int {
    Least(|c.requests|, SLOT_COUNT - |c.responses|)
  }

  /** How many requests an undisturbed drain answers. */
  function Answerable(c: Channel): int {
    Least(FirstIllegal(c.requests), InReach(c))
  }

  /** A request with an illegal length is in reach. */
  predicate IllegalInReach(c: Channel) {
    FirstIllegal(c.requests) < InReach(c)
  }

  /** In the words of a caller: one of the requests that can be answered now
      has an illegal length. */
  lemma IllegalInReachMeans(c: Channel)
    requires |c.responses| <= SLOT_COUNT
    ensures IllegalInReach(c) <==> exists i :: 0 <= i < InReach(c) && !Sendable(c.requests[i])
  {
    if IllegalInReach(c) {
      assert !Sendable(c.requests[FirstIllegal(c.requests)]);
    }
  }

  /** What one undisturbed iteration does: with room and a request it takes the
      oldest, and answers it if its length is legal. */
  predicate ServedQuietly(a: Channel, outcome: Served, b: Channel) {
    if |a.responses| == SLOT_COUNT || a.requests == [] then outcome == NothingToDo && b == a
    else if !Sendable(a.requests[0]) then outcome == Broken && b == a.(requests := a.requests[1..])
    else
      var (reply, g) := Respond(a.requests[0], a.gpio);
      && outcome == Answered
      && b == Channel(a.requests[1..], a.responses + [reply], a.taken + [a.requests[0]], g)
  }

  /** What an undisturbed drain leaves after n answers: the oldest n requests
      taken and answered in order, and the one that broke it off consumed. */
  predicate DrainedQuietly(a: Channel, n: int, broken: bool, b: Channel) {
    && 0 <= n && n + (if broken then 1 else 0) <= |a.requests| && |a.responses| + n <= SLOT_COUNT
    && Requests(a.requests[..n])
    && b == Channel(a.requests[n + (if broken then 1 else 0)..], a.responses + Replies(a.requests[..n], a.gpio),
                    a.taken + a.requests[..n], GpioAfter(a.requests[..n], a.gpio))
  }

  lemma DrainStarts(a: Channel)
    requires |a.responses| <= SLOT_COUNT
    ensures DrainedQuietly(a, 0, false, a)
  {
    assert a.requests[..0] == [] && a.requests[0..] == a.requests;
    assert a.responses + [] == a.responses && a.taken + [] == a.taken;
  }

  lemma NotIllegalBefore(q: seq<Slot>, n: nat)
    requires n <= |q| && Requests(q[..n])
    ensures FirstIllegal(q) >= n
  {
    forall i | 0 <= i < n ensures Sendable(q[i]) {
      assert q[..n][i] == q[i];
    }
  }

  lemma DrainGoesOn(a: Channel, n: nat, b: Channel, outcome: Served, c: Channel)
    requires DrainedQuietly(a, n, false, b) && ServedQuietly(b, outcome, c)
    ensures outcome == Answered ==> DrainedQuietly(a, n + 1, false, c)
    ensures outcome == Broken ==> DrainedQuietly(a, n, true, c) && Answerable(a) == n && IllegalInReach(a)
    ensures outcome == NothingToDo ==> DrainedQuietly(a, n, false, c) && Answerable(a) == n && !IllegalInReach(a)
  {
    hide Respond;
    var q := a.requests;
    NotIllegalBefore(q, n);
    if outcome == Answered {
      var m := q[n];
      assert b.requests[0] == m && q[..n + 1] == q[..n] + [m];
      RepliesSnoc(q[..n], m, a.gpio);
      assert b.requests[1..] == q[n + 1..];
      assert a.taken + q[..n] + [m] == a.taken + q[..n + 1];
      var reply := Respond(m, GpioAfter(q[..n], a.gpio)).0;
      assert (a.responses + Replies(q[..n], a.gpio)) + [reply] == a.responses + (Replies(q[..n], a.gpio) + [reply]);
    } else if outcome == Broken {
      assert b.requests[0] == q[n] && b.requests[1..] == q[n + 1..];
    }
  }

  /** After 64 answers there was neither a request nor room left. */
  lemma DrainIsFull(a: Channel, b: Channel)
    requires DrainedQuietly(a, SLOT_COUNT, false, b) && |a.requests| <= SLOT_COUNT
    ensures Answerable(a) == SLOT_COUNT && !IllegalInReach(a)
  {
    NotIllegalBefore(a.requests, SLOT_COUNT);
  }

  /** The number reported is the number answered, unless a request with an
      illegal length in reach follows one that was answered. */
  lemma ReportIsExact(c: Channel, processed: int, answered: int)
    requires |c.responses| <= SLOT_COUNT
    requires answered == Answerable(c) && processed == if IllegalInReach(c) then 0 else answered
    ensures processed == answered <==> !(IllegalInReach(c) && c.requests != [] && Sendable(c.requests[0]))
  {
    if IllegalInReach(c) && answered == 0 {
      assert FirstIllegal(c.requests) == 0;
    }
  }

  lemma TwoQueued(slots: seq<Slot>)
    requires |slots| == SLOT_COUNT
    ensures QueueOf(slots, 0, 2) == [slots[0], slots[1]]
    ensures Sub32(2, 0) == 2 && Sub32(0, 0) == 0
  {
    assert QueueOf(slots, 0, 1) == [slots[0]];
  }

  /** Linux has published two requests in a fresh generation. */
  method PublishTwo(t: ShmTransport, first: Slot, second: Slot)
    requires t.Valid()
    modifies t`layout, t`linuxPeer, t`rtosPeer, t.requestRing, t.responseRing, t.requestRing.slots
    modifies t`submitted, t`taken, t`held, t`answered, t`reaped, t`boot
    ensures t.Valid() && t.held == [] && Attachable(t.layout, t.linuxPeer)
    ensures t.requestRing.Honest() && t.responseRing.Honest()
    ensures t.requestRing.Contents() == [first, second] && t.responseRing.Contents() == []
  {
    hide QueueOf, Sub32, Attachable, Respond;
    t.LinuxRestart(1);
    t.requestRing.slots[0], t.requestRing.slots[1] := first, second;
    t.requestRing.producer, t.requestRing.consumer := 2, 0;
    TwoQueued(t.requestRing.slots[..]);
  }

  /** A good request, and one with an illegal length behind it: one reply is
      pushed and none is reported. */
  method AnsweredButNotReported(t: ShmTransport, m: Slot, illegal: Slot)
    returns (r: ProcessResult, processed: nat, queued: nat)
    requires t.Valid() && Sendable(m) && !Sendable(illegal)
    modifies t, t.requestRing, t.responseRing, t.requestRing.slots, t.responseRing.slots, t.responsePayload
    ensures r == ProcessCorrupt && processed == 0 && queued == 1
  {
    hide QueueOf, Sub32, Attachable, Respond, Requests, Replies, GpioAfter;
    PublishTwo(t, m, illegal);
    ghost var c := t.Snapshot();
    assert Sendable(c.requests[0]) && !Sendable(c.requests[1]);
    assert IllegalFrom(c.requests, 1) == 1;
    r, processed := t.Process([]);
    queued := t.responseRing.Occupancy();
    assert queued == |t.responseRing.Contents()|;
  }

  // ---------------------------------------------------------------- sessions

  /** One event in the life of the channel. */
  datatype Event = Restart(generation: u32) | LinuxMoves(ops: seq<LinuxOp>) | Doorbell(moves: seq<Interference>)

  /** The requests taken are the first ones submitted, and the responses reaped
      are the first of the replies to them. */
  predicate Settled(g: Generation) {
    && g.taken <= g.submitted && Requests(g.taken) && g.reaped <= Replies(g.taken, g.boot)
    && |g.submitted| - |g.taken| <= SLOT_COUNT && |g.taken| - |g.reaped| <= SLOT_COUNT
  }

  /** g continues the histories of f. */
  predicate Continues(f: Generation, g: Generation) {
    f.submitted <= g.submitted && f.taken <= g.taken && f.reaped <= g.reaped && f.boot == g.boot
  }

  ghost predicate Offers(e: Event, m: Slot) {
    match e
    case Restart(_) => false
    case LinuxMoves(ops) => Submit(m) in ops
    case Doorbell(moves) => OfferedDuring(moves, m)
  }

  /** m is offered by one of the first k events. */
  ghost predicate OfferedBefore(events: seq<Event>, k: nat, m: Slot)
    requires k <= |events|
  {
    exists i :: 0 <= i < k && Offers(events[i], m)
  }

  function Restarts(events: seq<Event>, k: nat): nat
    requires k <= |events|
  {
    if k == 0 then 0 else Restarts(events, k - 1) + if events[k - 1].Restart? then 1 else 0
  }

  /** Whatever was submitted had been submitted at the start, or was offered. */
  ghost predicate AllOffered(gs: seq<Generation>, start: seq<Slot>, events: seq<Event>, k: nat)
    requires k <= |events|
  {
    forall i, j :: 0 <= i < |gs| && 0 <= j < |gs[i].submitted| ==>
      (i == 0 && gs[i].submitted[j] in start) || OfferedBefore(events, k, gs[i].submitted[j])
  }

  lemma NothingOffered(start: seq<Slot>, events: seq<Event>)
    ensures AllOffered([], start, events, 0)
  {
  }

  lemma BeforeGrows(events: seq<Event>, k: nat, m: Slot)
    requires k < |events|
    ensures OfferedBefore(events, k, m) ==> OfferedBefore(events, k + 1, m)
  {
    if i :| 0 <= i < k && Offers(events[i], m) {
      assert 0 <= i < k + 1 && Offers(events[i], m);
    }
  }

  lemma OffersPersist(gs: seq<Generation>, start: seq<Slot>, events: seq<Event>, k: nat)
    requires k < |events| && AllOffered(gs, start, events, k)
    ensures AllOffered(gs, start, events, k + 1)
  {
    forall i, j | 0 <= i < |gs| && 0 <= j < |gs[i].submitted|
      ensures (i == 0 && gs[i].submitted[j] in start) || OfferedBefore(events, k + 1, gs[i].submitted[j])
    {
      BeforeGrows(events, k, gs[i].submitted[j]);
    }
  }

  lemma OffersFresh(gs: seq<Generation>, start: seq<Slot>, events: seq<Event>, k: nat, g: Generation)
    requires k <= |events| && AllOffered(gs, start, events, k) && g.submitted == (if gs == [] then start else [])
    ensures AllOffered(gs + [g], start, events, k)
  {
    hide OfferedBefore;
  }

  lemma OffersGrow(gs: seq<Generation>, start: seq<Slot>, events: seq<Event>, k: nat, g: Generation)
    requires k < |events| && gs != [] && AllOffered(gs, start, events, k)
    requires forall m :: m in g.submitted ==> m in gs[|gs| - 1].submitted || OfferedBefore(events, k + 1, m)
    ensures AllOffered(gs[|gs| - 1 := g], start, events, k + 1)
  {
    OffersPersist(gs, start, events, k);
    var n := |gs| - 1;
    var hs := gs[n := g];
    forall i, j | 0 <= i < |hs| && 0 <= j < |hs[i].submitted|
      ensures (i == 0 && hs[i].submitted[j] in start) || OfferedBefore(events, k + 1, hs[i].submitted[j])
    {
      var m := hs[i].submitted[j];
      if i == n && m in gs[n].submitted {
        var l :| 0 <= l < |gs[n].submitted| && gs[n].submitted[l] == m;
      } else if i == n {
        assert m in g.submitted;
      }
    }
  }

  /** Each generation starts with the pins that the one before it left. */
  ghost predicate Chained(gs: seq<Generation>) {
    && (forall i :: 0 <= i < |gs| ==> Settled(gs[i]))
    && (forall i :: 0 < i < |gs| ==> gs[i].boot == GpioAfter(gs[i - 1].taken, gs[i - 1].boot))
  }

  lemma CurrentIsSettled(t: ShmTransport)
    requires t.Linked() && t.held == []
    ensures t.Valid() && Settled(t.History()) && Legal(t.History()) && t.gpio == GpioAfter(t.taken, t.boot)
  {
    hide Replies, GpioAfter;
    t.LinkedBounds();
    t.HistoryIsLegal();
  }

  /** The generations so far, and whether the firmware can attach to the last one. */
  datatype Life = Life(generations: seq<Generation>, ready: bool)

  predicate LegalLife(l: Life) {
    l.generations != [] && forall i :: 0 <= i < |l.generations| ==> Legal(l.generations[i])
  }

  /** What an event does to a channel of two plain queues. */
  function AfterEvent(l: Life, e: Event): (r: Life)
    requires LegalLife(l)
    ensures LegalLife(r)
  {
    var n := |l.generations| - 1;
    var g := l.generations[n];
    TakenIsLegal(g);
    match e
    case Restart(generation) =>
      Life(l.generations + [Generation([], [], [], GpioAfter(g.taken, g.boot))], generation != 0)
    case LinuxMoves(ops) => l.(generations := l.generations[n := AfterTurn(g, 0, ops)])
    case Doorbell(moves) => if l.ready then l.(generations := l.generations[n := AfterDrain(g, moves, 0)]) else l
  }

  function AfterEvents(l: Life, events: seq<Event>): (r: Life)
    requires LegalLife(l)
    ensures LegalLife(r)
  {
    if events == [] then l else AfterEvent(AfterEvents(l, events[..|events| - 1]), events[|events| - 1])
  }

  ghost function LifeOf(t: ShmTransport): Life
    reads t, t.requestRing, t.responseRing, t.requestRing.slots, t.responseRing.slots
  {
    Life([t.History()], Attachable(t.layout, t.linuxPeer))
  }

  lemma OneLifeIsLegal(g: Generation, ready: bool)
    requires Legal(g)
    ensures LegalLife(Life([g], ready))
  {
  }

  /** One event, in the last generation. */
  method OnEvent(t: ShmTransport, e: Event) returns (corrupt: bool)
    requires t.Linked() && t.held == []
    modifies t`layout, t`linuxPeer, t`activeGeneration, t`rtosPeer
    modifies t`submitted, t`taken, t`held, t`answered, t`reaped, t`gpio, t`boot
    modifies t.requestRing, t.responseRing, t.requestRing.slots, t.responseRing.slots, t.responsePayload
    ensures !corrupt && t.Linked() && t.held == []
    ensures LegalLife(old(LifeOf(t)))
    ensures var l := AfterEvent(old(LifeOf(t)), e);
            l.generations[|l.generations| - 1] == t.History() && l.ready == Attachable(t.layout, t.linuxPeer)
    ensures !e.Restart? ==> Continues(old(t.History()), t.History())
    ensures forall m :: m in t.submitted ==> m in old(t.submitted) || Offers(e, m)
  {
    hide ShmTransport.Linked, Settled, GpioAfter, Attachable, AfterTurn, AfterDrain, Replies, QueueOf, Sub32;
    hide DrainedQuietly, Answerable, IllegalInReach;
    corrupt := false;
    CurrentIsSettled(t);
    OneLifeIsLegal(t.History(), Attachable(t.layout, t.linuxPeer));
    match e {
      case Restart(generation) => t.LinuxRestart(generation);
      case LinuxMoves(ops) => t.LinuxTurn(ops);
      case Doorbell(moves) =>
        var r, processed := t.Process(moves);
        corrupt := r == ProcessCorrupt;
    }
  }

  /** An event changes nothing but the last generation. */
  lemma OnlyTheLast(l: Life, e: Event)
    requires LegalLife(l)
    ensures LegalLife(Life([l.generations[|l.generations| - 1]], l.ready))
    ensures var n := |l.generations| - 1;
            var one, all := AfterEvent(Life([l.generations[n]], l.ready), e), AfterEvent(l, e);
            && |one.generations| == (if e.Restart? then 2 else 1)
            && all.ready == one.ready && Requests(l.generations[n].taken)
            && (e.Restart? ==>
                  one.generations[1] ==
                  Generation([], [], [], GpioAfter(l.generations[n].taken, l.generations[n].boot)))
            && all.generations == if e.Restart? then l.generations + [one.generations[1]]
                                  else l.generations[n := one.generations[0]]
  {
    hide AfterTurn, AfterDrain, GpioAfter;
    TakenIsLegal(l.generations[|l.generations| - 1]);
  }

  lemma EventOffers(events: seq<Event>, k: nat, before: seq<Slot>, after: seq<Slot>)
    requires k < |events|
    requires forall m :: m in after ==> m in before || Offers(events[k], m)
    ensures forall m :: m in after ==> m in before || OfferedBefore(events, k + 1, m)
  {
    forall m | m in after && m !in before ensures OfferedBefore(events, k + 1, m) {
      assert Offers(events[k], m);
    }
  }

  /** What holds of the generations of a life that began with `first`. */
  ghost predicate LifeOk(first: Generation, l: Life, events: seq<Event>, k: nat)
    requires k <= |events|
  {
    && |l.generations| == Restarts(events, k) + 1 && Chained(l.generations) && Continues(first, l.generations[0])
    && AllOffered(l.generations, first.submitted, events, k)
  }

  lemma LifeBegins(first: Generation, ready: bool, events: seq<Event>)
    requires Legal(first) && Settled(first)
    ensures LegalLife(Life([first], ready)) && LifeOk(first, Life([first], ready), events, 0)
  {
    hide Settled;
    NothingOffered(first.submitted, events);
    OffersFresh([], first.submitted, events, 0, first);
    assert [] + [first] == [first];
  }

  lemma LifeGoesOn(first: Generation, l: Life, events: seq<Event>, k: nat, h: Generation)
    requires k < |events| && LegalLife(l) && LifeOk(first, l, events, k) && Settled(h)
    requires LegalLife(Life([l.generations[|l.generations| - 1]], l.ready))
    requires var one := AfterEvent(Life([l.generations[|l.generations| - 1]], l.ready), events[k]).generations;
             h == one[|one| - 1]
    requires !events[k].Restart? ==> Continues(l.generations[|l.generations| - 1], h)
    requires forall m :: m in h.submitted ==> m in l.generations[|l.generations| - 1].submitted || Offers(events[k], m)
    ensures var all := AfterEvent(l, events[k]);
            LifeOk(first, all, events, k + 1) && all.generations[|all.generations| - 1] == h
  {
    hide Settled, Offers, OfferedBefore, AllOffered, AfterEvent, GpioAfter;
    OnlyTheLast(l, events[k]);
    if events[k].Restart? {
      OffersPersist(l.generations, first.submitted, events, k);
      OffersFresh(l.generations, first.submitted, events, k + 1, h);
    } else {
      EventOffers(events, k, l.generations[|l.generations| - 1].submitted, h.submitted);
      OffersGrow(l.generations, first.submitted, events, k, h);
    }
  }

  lemma LifeIsOk(first: Generation, l: Life, events: seq<Event>)
    requires LifeOk(first, l, events, |events|)
    ensures |l.generations| == Restarts(events, |events|) + 1 && Chained(l.generations)
    ensures Continues(first, l.generations[0]) && AllOffered(l.generations, first.submitted, events, |events|)
  {
  }

  /** Any sequence of doorbells, Linux moves and restarts: the firmware never
      reports corruption, and the histories are exactly those of a channel of
      two plain queues. There is one generation more than there are restarts;
      in each one the requests taken are the first ones submitted, the responses
      reaped are the first of their replies, the pins go on from generation to
      generation, and nothing was submitted that Linux did not offer. */
  method RunSession(t: ShmTransport, events: seq<Event>) returns (corrupt: bool, ghost generations: seq<Generation>)
    requires t.Linked() && t.held == []
    modifies t`layout, t`linuxPeer, t`activeGeneration, t`rtosPeer
    modifies t`submitted, t`taken, t`held, t`answered, t`reaped, t`gpio, t`boot
    modifies t.requestRing, t.responseRing, t.requestRing.slots, t.responseRing.slots, t.responsePayload
    ensures !corrupt && t.Linked() && t.held == []
    ensures LegalLife(old(LifeOf(t))) && generations == AfterEvents(old(LifeOf(t)), events).generations
    ensures |generations| == Restarts(events, |events|) + 1 && Chained(generations)
    ensures Continues(old(t.History()), generations[0]) && generations[|generations| - 1] == t.History()
    ensures AllOffered(generations, old(t.submitted), events, |events|)
  {
    hide ShmTransport.Linked, Settled, GpioAfter, Offers, AllOffered, Attachable, AfterEvent, LifeOk;
    corrupt := false;
    ghost var first, start := t.History(), LifeOf(t);
    ghost var life := start;
    CurrentIsSettled(t);
    LifeBegins(first, start.ready, events);
    for k := 0 to |events|
      invariant !corrupt && t.Linked() && t.held == []
      invariant LegalLife(start) && LegalLife(life) && life == AfterEvents(start, events[..k])
      invariant LifeOk(first, life, events, k)
      invariant life.generations[|life.generations| - 1] == t.History() && life.ready == LifeOf(t).ready
    {
      assert events[..k + 1][..k] == events[..k];
      OnlyTheLast(life, events[k]);
      corrupt := OnEvent(t, events[k]);
      CurrentIsSettled(t);
      LifeGoesOn(first, life, events, k, t.History());
      life := AfterEvent(life, events[k]);
    }
    generations := life.generations;
    assert events[..|events|] == events;
    LifeIsOk(first, life, events);
  }
}
