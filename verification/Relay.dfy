/** The firmware between two rings, one memory access a step: it probes the
    response ring, pops a request, computes the reply and pushes it, while
    Linux and all the caches of both rings move between any two accesses. */
module Relays {
  import opened Wrap
  import opened App
  import opened RingMachine

  /** What the application does with a request: the reply, and the pins after it. */
  type Handler = (Message, Gpio) -> (Message, Gpio)

  /** Replies fit a slot. */
  ghost predicate Brief(h: Handler) {
    forall m, g :: Length(h(m, g).0) <= PAYLOAD_SIZE
  }

  /** Where the firmware is in its drain loop; it rests between two iterations
      and between two doorbells. Halted is the error state. */
  datatype Fw = Resting | Checking | Taking | Answering | Halted

  datatype Link = Link(requests: RingMachine.State, responses: RingMachine.State, fw: Fw, pins: Gpio)

  datatype Label = Requests(l: RingMachine.Label) | Responses(l: RingMachine.Label) | Firmware

  predicate BothShaped(s: Link) {
    Shaped(s.requests) && Shaped(s.responses)
  }

  /** What happens to the request ring without the firmware's hand. */
  predicate NotAPop(l: RingMachine.Label) {
    !l.StartPop? && l != Consume
  }

  predicate NotAPush(l: RingMachine.Label) {
    !l.StartPush? && !l.StartProbe? && l != Produce
  }

  /** One step of the firmware's drain loop. */
  function Work(h: Handler, s: Link): (t: Link)
    requires BothShaped(s)
    ensures BothShaped(t)
  {
    var q, r := s.requests, s.responses;
    match s.fw
    case Resting => s.(responses := RingMachine.Step(r, StartProbe), fw := Checking)
    case Checking =>
      if !r.ppc.PIdle? then s.(responses := RingMachine.Step(r, Produce))
      else if r.ppc.last == Room then s.(requests := RingMachine.Step(q, StartPop), fw := Taking)
      else if r.ppc.last == NoRoom then s.(fw := Resting)
      else s.(fw := Halted)
    case Taking =>
      if !q.cpc.CIdle? then s.(requests := RingMachine.Step(q, Consume))
      else if q.cpc.last.Got? then
        var (reply, pins) := h(q.cpc.last.m, s.pins);
        s.(responses := RingMachine.Step(r, StartPush(reply)), fw := Answering, pins := pins)
      else if q.cpc.last.Empty? then s.(fw := Resting)
      else s.(fw := Halted)
    case Answering =>
      if !r.ppc.PIdle? then s.(responses := RingMachine.Step(r, Produce))
      else if r.ppc.last == Ok then s.(fw := Resting)
      else s.(fw := Halted)
    case Halted => s
  }

  /** One step of Linux, of a cache or of the firmware. */
  function Step(h: Handler, s: Link, l: Label): (t: Link)
    requires BothShaped(s)
    ensures BothShaped(t)
  {
    match l
    case Requests(k) => if NotAPop(k) then s.(requests := RingMachine.Step(s.requests, k)) else s
    case Responses(k) => if NotAPush(k) then s.(responses := RingMachine.Step(s.responses, k)) else s
    case Firmware => Work(h, s)
  }

  function Run(h: Handler, s: Link, ls: seq<Label>): (t: Link)
    requires BothShaped(s)
    ensures BothShaped(t)
    decreases |ls|
  {
    if ls == [] then s else Run(h, Step(h, s, ls[0]), ls[1..])
  }

  /** Two rings at rest. */
  predicate Init(s: Link, boot: Gpio) {
    RingMachine.Init(s.requests) && RingMachine.Init(s.responses) && s.fw == Resting && s.pins == boot
  }

  // ---------------------------------------------------------------- what it should do

  function PinsAfter(h: Handler, ms: seq<Message>, boot: Gpio): Gpio {
    if ms == [] then boot else h(ms[|ms| - 1], PinsAfter(h, ms[..|ms| - 1], boot)).1
  }

  /** The replies to a sequence of requests, in order. */
  function Replies(h: Handler, ms: seq<Message>, boot: Gpio): (r: seq<Message>)
    ensures |r| == |ms|
  {
    if ms == [] then []
    else
      var front := ms[..|ms| - 1];
      Replies(h, front, boot) + [h(ms[|ms| - 1], PinsAfter(h, front, boot)).0]
  }

  /** Popped and not handled yet. */
  predicate Held(s: Link) {
    s.fw.Taking? && (s.requests.cpc.CCleanCounter? || (s.requests.cpc.CIdle? && s.requests.cpc.last.Got?))
  }

  /** Handled, with the reply not yet published. */
  predicate Owed(s: Link) {
    s.fw.Answering? && !s.responses.ppc.PCleanCounter? && !s.responses.ppc.PIdle?
  }

  /** The requests whose replies have been published. */
  function Answered(s: Link): seq<Message> {
    var all := s.requests.received;
    if (Held(s) || Owed(s)) && all != [] then all[..|all| - 1] else all
  }

  /** The plain channel that this one implements: what Linux has published,
      what has been answered, whether the next request is in the firmware's
      hands, and what Linux has popped. */
  datatype Channel = Channel(submitted: seq<Message>, taken: seq<Message>, inHand: bool, reaped: seq<Message>)

  function Plain(s: Link): Channel {
    Channel(s.requests.sent, Answered(s), |Answered(s)| < |s.requests.received|, s.responses.received)
  }

  /** What can happen to a channel of two queues of 64 places: Linux submits a
      request if there is a place, the firmware takes the oldest into its hands,
      it answers it if there is a place, Linux reaps the oldest response. */
  ghost predicate Moves(h: Handler, boot: Gpio, c: Channel, d: Channel) {
    || d == c
    || (exists m ::
          && |c.submitted| < |c.taken| + (if c.inHand then 1 else 0) + SLOT_COUNT
          && d == c.(submitted := c.submitted + [m]))
    || (|c.taken| < |c.submitted| && !c.inHand && d == c.(inHand := true))
    || (|c.taken| < |c.submitted| && c.inHand && |c.taken| < |c.reaped| + SLOT_COUNT
        && d == c.(taken := c.taken + [c.submitted[|c.taken|]], inHand := false))
    || (|c.reaped| < |c.taken| && d == c.(reaped := c.reaped + [Replies(h, c.taken, boot)[|c.reaped|]]))
  }
}
