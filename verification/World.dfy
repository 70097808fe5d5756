/** Everything outside the library: the kernel driver, the clock and the other
    side of the channel. A script says how the world moves each time the
    library touches it; the theorems hold for every script. */
module Worlds {
  import opened Wrap
  import opened Shm

  /** errno values that the library tells apart. Blocked is no errno: the
      script has ended and the call has not returned. */
  datatype Status =
    | Ok | EAgain | ETimedOut | EMsgSize | ENoBufs | EProto | ENoEnt | EInval | ENoTty | Blocked
    | Errno(code: nat)

  /** What the kernel would do with a submission. */
  datatype Answer = Accept(sequences: seq<u32>) | Refuse(error: Status)

  /** One move of the world: time passes, responses arrive, the request ring
      has room or not, and an ioctl would be answered so. */
  datatype Move = Move(elapsed: nat, arrivals: seq<Slot>, room: bool, answer: Answer)

  /** A request the driver has taken, and how many responses it had handed up
      by then. */
  datatype Taken = Taken(request: Slot, after: nat)

  /** `past` are the moves already made, `script` those to come. */
  datatype World = World(
    now: nat,
    inbox: seq<Slot>,
    arrived: seq<Slot>,
    accepted: seq<Taken>,
    room: bool,
    past: seq<Move>,
    script: seq<Move>)

  /** The driver assigns nonzero sequences, hands up responses that fit their
      slot, refuses only with an error that is not one of the library's own. */
  predicate HonestMove(m: Move) {
    && (forall i :: 0 <= i < |m.arrivals| ==> HonestResponse(m.arrivals[i]))
    && match m.answer
       case Accept(s) => s != [] && forall i :: 0 <= i < |s| ==> s[i] != 0
       case Refuse(e) => e == EAgain || e == ETimedOut || e == ENoTty || e.Errno?
  }

  predicate HonestResponse(m: Slot) {
    m.sequence != 0 && Sendable(m)
  }

  function Elapsed(script: seq<Move>): nat {
    if script == [] then 0 else script[0].elapsed + Elapsed(script[1..])
  }

  const CLOCK_LIMIT: nat := 0x8000_0000_0000_0000
  const TWO_64: nat := 0x1_0000_0000_0000_0000

  /** A well-behaved world; its clock stays below 2^63 milliseconds. */
  predicate Honest(w: World) {
    && (forall i :: 0 <= i < |w.script| ==> HonestMove(w.script[i]))
    && (forall i :: 0 <= i < |w.inbox| ==> HonestResponse(w.inbox[i]))
    && w.now + Elapsed(w.script) < CLOCK_LIMIT
  }

  /** The world makes its next move. */
  function Tick(w: World): World {
    if w.script == [] then w
    else
      var m := w.script[0];
      w.(now := w.now + m.elapsed, inbox := w.inbox + m.arrivals, arrived := w.arrived + m.arrivals,
         room := m.room, past := w.past + [m], script := w.script[1..])
  }

  function Arrivals(script: seq<Move>): seq<Slot> {
    if script == [] then [] else script[0].arrivals + Arrivals(script[1..])
  }

  /** The whole course of the world, and the clock and the arrivals at its end. */
  function Course(w: World): seq<Move> {
    w.past + w.script
  }

  function EndOfTime(w: World): nat {
    w.now + Elapsed(w.script)
  }

  function AllArrivals(w: World): seq<Slot> {
    w.arrived + Arrivals(w.script)
  }

  /** v has become w by making moves of its script, and in no other way: the
      clock has advanced by what they take, and exactly their responses have
      arrived. */
  predicate Evolved(v: World, w: World) {
    Course(w) == Course(v) && |v.past| <= |w.past| && EndOfTime(w) == EndOfTime(v) && AllArrivals(w) == AllArrivals(v)
  }

  lemma EvolvedOn(u: World, v: World, w: World)
    ensures Evolved(u, u) && (Evolved(u, v) && Evolved(v, w) ==> Evolved(u, w) && |u.past| <= |v.past| <= |w.past|)
  {
  }

  lemma {:induction false} SumOfMoves(a: seq<Move>, b: seq<Move>)
    ensures Elapsed(a + b) == Elapsed(a) + Elapsed(b) && Arrivals(a + b) == Arrivals(a) + Arrivals(b)
  {
    if a == [] {
      assert a + b == b;
    } else {
      assert (a + b)[0] == a[0] && (a + b)[1..] == a[1..] + b;
      SumOfMoves(a[1..], b);
    }
  }

  /** Which moves those are, and what they have done. */
  lemma EvolvedBy(v: World, w: World)
    requires Evolved(v, w)
    ensures var n := |w.past| - |v.past|;
            && n <= |v.script| && w.script == v.script[n..] && w.past == v.past + v.script[..n]
            && w.now == v.now + Elapsed(v.script[..n])
            && w.arrived == v.arrived + Arrivals(v.script[..n])
  {
    var n := |w.past| - |v.past|;
    SameCourse(v.past, v.script, w.past, w.script);
    var done := v.script[..n];
    assert v.script == done + w.script;
    SumOfMoves(done, w.script);
    assert (v.arrived + Arrivals(done)) + Arrivals(w.script) == v.arrived + (Arrivals(done) + Arrivals(w.script));
    CancelRight(w.arrived, v.arrived + Arrivals(done), Arrivals(w.script));
  }

  lemma SameCourse(p: seq<Move>, s: seq<Move>, q: seq<Move>, t: seq<Move>)
    requires p + s == q + t && |p| <= |q|
    ensures var n := |q| - |p|;
            n <= |s| && t == s[n..] && q == p + s[..n]
  {
    assert |p + s| == |q + t|;
    assert t == (q + t)[|q|..] && s == (p + s)[|p|..];
    assert q == (q + t)[..|q|] && p == (p + s)[..|p|];
  }

  lemma CancelRight(a: seq<Slot>, b: seq<Slot>, tail: seq<Slot>)
    requires a + tail == b + tail
    ensures a == b
  {
    assert |a| == |b|;
    assert a == (a + tail)[..|a|] && b == (b + tail)[..|b|];
  }

  lemma TickEvolves(w: World)
    ensures Evolved(w, Tick(w))
  {
    if w.script != [] {
      assert [w.script[0]] + w.script[1..] == w.script;
      assert Course(Tick(w)) == Course(w);
    }
  }

  /** Only time has passed between v and w, and responses may have arrived. */
  predicate Later(v: World, w: World) {
    && v.now <= w.now && w.accepted == v.accepted
    && v.inbox <= w.inbox && w.arrived == v.arrived + w.inbox[|v.inbox|..]
    && |w.script| <= |v.script| && Evolved(v, w)
    && w.room == if |w.past| == |v.past| then v.room else w.past[|w.past| - 1].room
  }

  /** The last move has refused with this error. */
  predicate Refused(w: World, e: Status) {
    w.past != [] && w.past[|w.past| - 1].answer == Refuse(e)
  }

  /** No response has been there for longer than since the last move. */
  predicate NothingMissed(w: World) {
    w.inbox == [] || (w.past != [] && w.inbox == w.past[|w.past| - 1].arrivals)
  }

  /** Of the moves from the k-th on, none but the last has left room for a request. */
  predicate NoRoomSince(k: nat, w: World) {
    forall i :: k <= i < |w.past| - 1 ==> !w.past[i].room
  }

  lemma TickIsLater(w: World)
    requires Honest(w)
    ensures Honest(Tick(w)) && Later(w, Tick(w))
    ensures w.script != [] ==> |Tick(w).script| < |w.script|
  {
    TickEvolves(w);
    if w.script == [] {
      assert w.inbox[|w.inbox|..] == [];
    } else {
      assert HonestMove(w.script[0]);
      var t := Tick(w);
      forall i | 0 <= i < |t.script| ensures HonestMove(t.script[i]) {
        assert t.script[i] == w.script[i + 1];
      }
    }
  }

  lemma LaterBalances(v: World, w: World, before: seq<Slot>)
    requires Later(v, w) && v.arrived == before + v.inbox
    ensures w.arrived == before + w.inbox
  {
    var news := w.inbox[|v.inbox|..];
    assert v.inbox + news == w.inbox;
    assert (before + v.inbox) + news == before + (v.inbox + news);
  }

  /** The receive ioctl takes the oldest response. */
  function Pop(w: World): World
    requires w.inbox != []
  {
    w.(inbox := w.inbox[1..])
  }

  lemma PopKeeps(w: World)
    requires Honest(w) && w.inbox != []
    ensures Honest(Pop(w)) && HonestResponse(w.inbox[0])
    ensures w.inbox == [w.inbox[0]] + Pop(w).inbox && Evolved(w, Pop(w))
  {
  }

  /** A move keeps the balance of arrivals. */
  lemma TickBalances(w: World, before: seq<Slot>)
    requires w.arrived == before + w.inbox
    ensures Tick(w).arrived == before + Tick(w).inbox
  {
  }

  lemma LaterIsTransitive(u: World, v: World, w: World)
    requires Later(u, v) && Later(v, w)
    ensures Later(u, w)
  {
    var n := |u.inbox|;
    assert w.inbox[n..] == v.inbox[n..] + w.inbox[|v.inbox|..];
    SameCourse(v.past, v.script, w.past, w.script);
  }

  lemma LaterIsReflexive(w: World)
    ensures Later(w, w)
  {
    assert w.inbox[|w.inbox|..] == [];
  }

  /** What a move of the script does to an empty queue. */
  lemma TickBrings(w: World)
    ensures w.inbox == [] ==> NothingMissed(Tick(w))
    ensures w.script != [] && w.script[0].answer.Refuse? ==> Refused(Tick(w), w.script[0].answer.error)
    ensures Tick(w).past == if w.script == [] then w.past else w.past + [w.script[0]]
  {
  }

  lemma NoRoomAtFirst(k: nat, w: World)
    requires |w.past| <= k + 1
    ensures NoRoomSince(k, w)
  {
  }

  /** Each look that finds no room rules out the move before it. */
  lemma NoRoomYet(v: World, w: World, x: World)
    requires Later(v, w) && v.past <= w.past <= x.past && !w.room
    requires NoRoomSince(|v.past|, w) && NoRoomSince(|w.past|, x)
    ensures NoRoomSince(|v.past|, x)
  {
    forall i | |v.past| <= i < |x.past| - 1 ensures !x.past[i].room {
      assert i < |w.past| ==> x.past[i] == w.past[i];
    }
  }

  /** Waiting one move more. */
  lemma TickGoesOn(v: World, w: World, noRoom: bool)
    requires Honest(w) && Later(v, w) && v.past <= w.past && (noRoom ==> !w.room && NoRoomSince(|v.past|, w))
    ensures Honest(Tick(w)) && Later(v, Tick(w)) && v.past <= Tick(w).past
    ensures noRoom ==> NoRoomSince(|v.past|, Tick(w))
    ensures w.script != [] ==> |Tick(w).script| < |w.script|
    ensures w.now <= Tick(w).now
  {
    hide Honest, Evolved, NoRoomSince;
    TickIsLater(w);
    LaterIsTransitive(v, w, Tick(w));
    if noRoom {
      NoRoomAtFirst(|w.past|, Tick(w));
      NoRoomYet(v, w, Tick(w));
    }
  }

  /** How many moves from the first on accept a request. */
  function Accepting(script: seq<Move>): (n: nat)
    ensures n <= |script| && (forall i :: 0 <= i < n ==> script[i].answer.Accept?)
    ensures n < |script| ==> script[n].answer.Refuse?
  {
    if script == [] || script[0].answer.Refuse? then 0 else Accepting(script[1..]) + 1
  }

  lemma AcceptingIs(script: seq<Move>, n: nat)
    requires n <= |script| && (forall i :: 0 <= i < n ==> script[i].answer.Accept?)
    ensures n <= Accepting(script)
    ensures n == |script| || script[n].answer.Refuse? ==> n == Accepting(script)
  {
  }

  /** The payload as far as it is used; bytes behind it carry no meaning. */
  datatype Content = Content(sequence: u32, length: u16, bytes: seq<bv8>)

  function Used(m: Slot): Content
    requires Sendable(m)
  {
    Content(m.sequence, m.length, m.payload[..m.length])
  }

  /** The driver took request i of the batch under the i-th sequence. */
  predicate AcceptedAs(w: seq<Taken>, batch: seq<Slot>) {
    |w| == |batch| && forall i :: 0 <= i < |w| ==>
      Sendable(w[i].request) && Sendable(batch[i]) && Used(w[i].request) == Used(batch[i])
  }

  /** The driver takes these requests now. */
  function AcceptAll(w: World, requests: seq<Slot>): (r: World)
    ensures Evolved(w, r) && r.inbox == w.inbox && r.arrived == w.arrived
    ensures r.now == w.now && r.script == w.script && |r.accepted| == |w.accepted| + |requests|
    ensures w.accepted == r.accepted[..|w.accepted|]
    ensures forall i :: 0 <= i < |requests| ==> r.accepted[|w.accepted| + i].request == requests[i]
  {
    w.(accepted := w.accepted + seq(|requests|, i requires 0 <= i < |requests| => Taken(requests[i], HandedUp(w))))
  }

  /** How many responses the library has taken. */
  function HandedUp(w: World): nat {
    if |w.inbox| <= |w.arrived| then |w.arrived| - |w.inbox| else 0
  }

  /** Waiting loses no time and accepts nothing. */
  lemma LaterKeeps(v: World, w: World)
    requires Later(v, w)
    ensures v.now <= w.now && w.accepted == v.accepted && |w.script| <= |v.script| && Evolved(v, w)
    ensures |w.script| == |v.script| ==> |v.inbox| <= |w.inbox|
  {
  }

  lemma TickAdds(w: World)
    ensures |w.inbox| <= |Tick(w).inbox|
  {
  }

  lemma TickIsShorter(w: World)
    ensures |Tick(w).script| <= |w.script|
    ensures w.script != [] ==> |Tick(w).script| < |w.script|
    ensures w.script == [] ==> Tick(w) == w
  {
  }

  lemma AcceptOne(w: World, r: Slot)
    ensures AcceptAll(w, [r]).accepted == w.accepted + [Taken(r, HandedUp(w))]
  {
  }

  lemma AcceptedNow(w: World, requests: seq<Slot>)
    requires forall i :: 0 <= i < |requests| ==> Sendable(requests[i])
    ensures AcceptedAs(AcceptAll(w, requests).accepted[|w.accepted|..], requests)
    ensures w.accepted <= AcceptAll(w, requests).accepted
  {
  }

  lemma NoneAccepted()
    ensures AcceptedAs([], [])
  {
  }
}
