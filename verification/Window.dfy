/** The sliding-window benchmark: up to 64 tickets for the requests in flight. */
module Windows {
  import opened Wrap
  import opened Shm
  import opened App
  import opened Shares
  import opened Workload
  import opened Flights

  const EAGAIN: int := -11
  const EPROTO: int := -71
  const EOVERFLOW: int := -75
  const EDEADLK: int := -35
  const EIO: int := -5
  const ETIMEDOUT: int := -110
  /** No errno: the script has ended and the call has not returned. */
  const SCRIPT_ENDED: int := 2

  datatype Ticket = Ticket(active: bool, sequence: u32, seed: u32, start: nat)

  /** What the channel does at one library call: the firmware answers some
      messages, the call fails, or the driver takes a prefix of the batch under
      these sequences, hands up these messages, or reports readiness. */
  datatype Move = Move(now: nat, answers: seq<nat>, error: int, sequences: seq<u32>, picks: seq<nat>, ready: bool)

  /** The library's errors are none of those that the benchmark raises itself. */
  predicate TameMove(m: Move) {
    m.error == 0 || (m.error < 0 && m.error != EPROTO && m.error != EOVERFLOW && m.error != EDEADLK &&
        m.error != EAGAIN)
  }

  predicate Tame(script: seq<Move>) {
    forall i :: 0 <= i < |script| ==> TameMove(script[i])
  }

  // ---------------------------------------------------------------- tickets

  /** find_ticket: the first active ticket with this sequence, or the end. */
  function FindActive(ts: seq<Ticket>, sequence: u32, i: nat): (t: nat)
    requires i <= |ts|
    ensures i <= t <= |ts|
    ensures t < |ts| ==> ts[t].active && ts[t].sequence == sequence
    ensures forall j :: i <= j < t ==> !(ts[j].active && ts[j].sequence == sequence)
    decreases |ts| - i
  {
    if i == |ts| || (ts[i].active && ts[i].sequence == sequence) then i else FindActive(ts, sequence, i + 1)
  }

  /** find_free_ticket. */
  function FindFree(ts: seq<Ticket>, i: nat): (t: nat)
    requires i <= |ts|
    ensures i <= t <= |ts|
    ensures t < |ts| ==> !ts[t].active
    ensures forall j :: i <= j < t ==> ts[j].active
    decreases |ts| - i
  {
    if i == |ts| || !ts[i].active then i else FindFree(ts, i + 1)
  }

  function ActiveCount(ts: seq<Ticket>): (n: nat)
    ensures n <= |ts|
  {
    if ts == [] then 0 else ActiveCount(ts[..|ts| - 1]) + if ts[|ts| - 1].active then 1 else 0
  }

  lemma {:induction false} ActiveUpdate(ts: seq<Ticket>, i: nat, t: Ticket)
    requires i < |ts|
    ensures ActiveCount(ts[i := t]) + (if ts[i].active then 1 else 0) == ActiveCount(ts) + if t.active then 1 else 0
  {
    var n := |ts| - 1;
    if i == n {
      assert ts[i := t][..n] == ts[..n];
    } else {
      assert ts[i := t][..n] == ts[..n][i := t];
      ActiveUpdate(ts[..n], i, t);
    }
  }

  /** A ticket is free as long as fewer are active than there are. */
  lemma {:induction false} SomeFree(ts: seq<Ticket>)
    requires ActiveCount(ts) < |ts|
    ensures FindFree(ts, 0) < |ts|
  {
    if FindFree(ts, 0) == |ts| {
      AllActive(ts);
    }
  }

  lemma {:induction false} AllActive(ts: seq<Ticket>)
    requires forall i :: 0 <= i < |ts| ==> ts[i].active
    ensures ActiveCount(ts) == |ts|
  {
    if ts != [] {
      AllActive(ts[..|ts| - 1]);
    }
  }

  lemma {:induction false} NoneActive(ts: seq<Ticket>)
    requires forall i :: 0 <= i < |ts| ==> !ts[i].active
    ensures ActiveCount(ts) == 0
  {
    if ts != [] {
      NoneActive(ts[..|ts| - 1]);
    }
  }

  // ---------------------------------------------------------------- tickets and messages

  /** Message k is the request with number k, or the firmware's answer to it,
      which passes the check for its seed. */
  predicate ContentAt(flights: seq<Flight>, k: nat, base: u32, size: nat)
    requires k < |flights| && size <= MAX_ECHO_DATA_BYTES
  {
    var f := flights[k];
    && (f.place == Sent ==> f.slot == Request(f.slot.sequence, size, SeedAt(base, k)))
    && (f.place != Sent ==> Accepts(f.slot, size, SeedAt(base, k)))
  }

  predicate ContentOk(flights: seq<Flight>, base: u32, size: nat)
    requires size <= MAX_ECHO_DATA_BYTES
  {
    forall k :: 0 <= k < |flights| ==> ContentAt(flights, k, base, size)
  }

  predicate Out(f: Flight) {
    f.place != Consumed
  }

  predicate DistinctOut(flights: seq<Flight>) {
    forall j, k :: 0 <= j < k < |flights| && Out(flights[j]) && Out(flights[k]) ==>
      flights[j].slot.sequence != flights[k].slot.sequence
  }

  predicate DistinctActive(ts: seq<Ticket>) {
    forall i, j :: 0 <= i < j < |ts| && ts[i].active && ts[j].active ==> ts[i].sequence != ts[j].sequence
  }

  /** One of the first n messages is out under this sequence. */
  predicate IsOut(flights: seq<Flight>, n: nat, sequence: u32)
    requires n <= |flights|
  {
    exists k :: 0 <= k < n && Out(flights[k]) && flights[k].slot.sequence == sequence
  }

  /** Message k has a ticket, with its own seed. */
  predicate Ticketed(ts: seq<Ticket>, flights: seq<Flight>, k: nat, base: u32)
    requires k < |flights|
  {
    var t := FindActive(ts, flights[k].slot.sequence, 0);
    t < |ts| && ts[t].seed == SeedAt(base, k)
  }

  /** The active tickets and the first n messages that are out correspond. */
  predicate Matched(ts: seq<Ticket>, flights: seq<Flight>, n: nat, base: u32)
    requires n <= |flights|
  {
    && DistinctOut(flights) && DistinctActive(ts)
    && (forall k :: 0 <= k < n && Out(flights[k]) ==> Ticketed(ts, flights, k, base))
    && (forall t :: 0 <= t < |ts| && ts[t].active ==> IsOut(flights, n, ts[t].sequence))
  }

  lemma FindsTheTicket(ts: seq<Ticket>, t: nat)
    requires DistinctActive(ts) && t < |ts| && ts[t].active
    ensures FindActive(ts, ts[t].sequence, 0) == t
  {
  }

  /** Completing message k frees its ticket and no other. */
  lemma CompleteMatches(ts: seq<Ticket>, flights: seq<Flight>, k: nat, base: u32)
    requires Matched(ts, flights, |flights|, base) && k < |flights| && Out(flights[k])
    ensures var t := FindActive(ts, flights[k].slot.sequence, 0);
            && t < |ts| && ts[t].seed == SeedAt(base, k)
            && Matched(ts[t := ts[t].(active := false)], flights[k := flights[k].(place := Consumed)], |flights|, base)
  {
    hide SeedAt, IsOut;
    assert Ticketed(ts, flights, k, base);
    var t := FindActive(ts, flights[k].slot.sequence, 0);
    var us := ts[t := ts[t].(active := false)];
    var gs := flights[k := flights[k].(place := Consumed)];
    forall j | 0 <= j < |gs| && Out(gs[j]) ensures Ticketed(us, gs, j, base) {
      KeepsTicket(ts, flights, t, j, base);
      assert gs[j] == flights[j];
    }
    forall i | 0 <= i < |us| && us[i].active ensures IsOut(gs, |gs|, us[i].sequence) {
      StaysOut(flights, k, ts[i].sequence);
    }
  }

  /** Freeing a ticket leaves the messages with other sequences their own. */
  lemma KeepsTicket(ts: seq<Ticket>, flights: seq<Flight>, t: nat, j: nat, base: u32)
    requires DistinctActive(ts) && t < |ts| && ts[t].active
    requires j < |flights| && Ticketed(ts, flights, j, base) && flights[j].slot.sequence != ts[t].sequence
    ensures Ticketed(ts[t := ts[t].(active := false)], flights, j, base)
  {
    hide SeedAt;
    var us := ts[t := ts[t].(active := false)];
    var i := FindActive(ts, flights[j].slot.sequence, 0);
    assert us[i] == ts[i];
    FindsTheTicket(us, i);
  }

  lemma StaysOut(flights: seq<Flight>, k: nat, sequence: u32)
    requires k < |flights| && IsOut(flights, |flights|, sequence) && flights[k].slot.sequence != sequence
    ensures IsOut(flights[k := flights[k].(place := Consumed)], |flights|, sequence)
  {
    var gs := flights[k := flights[k].(place := Consumed)];
    var j :| 0 <= j < |flights| && Out(flights[j]) && flights[j].slot.sequence == sequence;
    assert gs[j] == flights[j];
  }

  /** A request just taken has no ticket yet, and gets a free one. */
  lemma RecordMatches(ts: seq<Ticket>, flights: seq<Flight>, n: nat, base: u32, t: nat, start: nat)
    requires n < |flights| && Matched(ts, flights, n, base) && Out(flights[n])
    requires t < |ts| && !ts[t].active
    ensures FindActive(ts, flights[n].slot.sequence, 0) == |ts|
    ensures Matched(ts[t := Ticket(true, flights[n].slot.sequence, SeedAt(base, n), start)], flights, n + 1, base)
  {
    hide SeedAt;
    var q := flights[n].slot.sequence;
    forall i | 0 <= i < |ts| && ts[i].active ensures ts[i].sequence != q {
      assert IsOut(flights, n, ts[i].sequence);
    }
    var us := ts[t := Ticket(true, q, SeedAt(base, n), start)];
    forall k | 0 <= k < n + 1 && Out(flights[k]) ensures Ticketed(us, flights, k, base) {
      if k == n {
        FindsTheTicket(us, t);
      } else {
        assert Ticketed(ts, flights, k, base);
        var i := FindActive(ts, flights[k].slot.sequence, 0);
        assert us[i] == ts[i];
        FindsTheTicket(us, i);
      }
    }
    forall i | 0 <= i < |us| && us[i].active ensures IsOut(flights, n + 1, us[i].sequence) {
      if i != t {
        assert IsOut(flights, n, ts[i].sequence);
        var k :| 0 <= k < n && Out(flights[k]) && flights[k].slot.sequence == ts[i].sequence;
        assert k < n + 1;
      }
    }
  }

  /** Only places and contents of messages changed, none was dealt with. */
  predicate SameOut(flights: seq<Flight>, gs: seq<Flight>) {
    && |gs| == |flights|
    && forall k :: 0 <= k < |flights| ==>
         Out(gs[k]) == Out(flights[k]) && gs[k].slot.sequence == flights[k].slot.sequence
  }

  lemma SameOutMatches(ts: seq<Ticket>, flights: seq<Flight>, gs: seq<Flight>, n: nat, base: u32)
    requires n <= |flights| && Matched(ts, flights, n, base) && SameOut(flights, gs)
    ensures Matched(ts, gs, n, base)
  {
    hide SeedAt, FindActive;
    forall k | 0 <= k < n && Out(gs[k]) ensures Ticketed(ts, gs, k, base) {
      assert Ticketed(ts, flights, k, base);
    }
    forall t | 0 <= t < |ts| && ts[t].active ensures IsOut(gs, n, ts[t].sequence) {
      assert IsOut(flights, n, ts[t].sequence);
      var k :| 0 <= k < n && Out(flights[k]) && flights[k].slot.sequence == ts[t].sequence;
      assert Out(gs[k]);
    }
  }

  /** The firmware's answer to message k passes the check for its seed. */
  lemma AnswerContent(flights: seq<Flight>, gpio: Gpio, k: nat, base: u32, size: nat)
    requires size <= MAX_ECHO_DATA_BYTES && ContentOk(flights, base, size)
    ensures var gs := AnswerOne(flights, gpio, k).0;
            ContentOk(gs, base, size) && SameOut(flights, gs)
            && forall j :: 0 <= j < |gs| ==> (gs[j].place == Held <==> flights[j].place == Held)
  {
    hide Request, Accepts, Respond, SeedAt;
    var gs := AnswerOne(flights, gpio, k).0;
    if k < |flights| && flights[k].place == Sent {
      assert ContentAt(flights, k, base, size);
      ReplyIsAccepted(flights[k].slot.sequence, size, SeedAt(base, k), gpio);
    }
    forall j | 0 <= j < |gs| ensures ContentAt(gs, j, base, size) {
      assert ContentAt(flights, j, base, size);
    }
  }

  /** The requests with the numbers from n on. */
  predicate Requested(messages: seq<Slot>, n: nat, base: u32, size: nat)
    requires size <= MAX_ECHO_DATA_BYTES
  {
    forall i :: 0 <= i < |messages| ==> messages[i] == Request(0, size, SeedAt(base, n + i))
  }

  /** The driver takes the first requests of a batch. */
  function Launch(flights: seq<Flight>, messages: seq<Slot>, sequences: seq<u32>): (r: seq<Flight>)
    requires |sequences| <= |messages|
    ensures |r| == |flights| + |sequences|
  {
    flights + seq(|sequences|, i requires 0 <= i < |sequences| =>
      Flight(|flights| + i, messages[i].(sequence := sequences[i]), Sent))
  }

  /** The batch as the driver hands it back. */
  function Stamped(messages: seq<Slot>, sequences: seq<u32>): (r: seq<Slot>)
    requires |sequences| <= |messages|
    ensures |r| == |sequences|
  {
    seq(|sequences|, i requires 0 <= i < |sequences| => messages[i].(sequence := sequences[i]))
  }

  /** These messages are out, as the messages from number n on. */
  predicate TakenAt(messages: seq<Slot>, flights: seq<Flight>, n: nat) {
    forall i :: 0 <= i < |messages| ==>
      n + i < |flights| && messages[i] == flights[n + i].slot && Out(flights[n + i])
  }

  lemma LaunchedAt(flights: seq<Flight>, messages: seq<Slot>, sequences: seq<u32>)
    requires |sequences| <= |messages|
    ensures TakenAt(Stamped(messages, sequences), Launch(flights, messages, sequences), |flights|)
    ensures |Launch(flights, messages, sequences)| == |flights| + |Stamped(messages, sequences)|
  {
  }

  lemma LaunchMatches(ts: seq<Ticket>, flights: seq<Flight>, messages: seq<Slot>, sequences: seq<u32>, base: u32,
      size: nat)
    requires size <= MAX_ECHO_DATA_BYTES && Matched(ts, flights, |flights|, base) && ContentOk(flights, base, size)
    requires HeldOk([], flights) && FreshBatch(flights, sequences)
    requires |sequences| <= |messages| && Requested(messages, |flights|, base, size)
    ensures var gs := Launch(flights, messages, sequences);
            Matched(ts, gs, |flights|, base) && ContentOk(gs, base, size) && HeldOk([], gs)
  {
    hide SeedAt, FindActive, Request, Accepts;
    var n := |flights|;
    var gs := Launch(flights, messages, sequences);
    forall k | 0 <= k < |gs| ensures ContentAt(gs, k, base, size) {
      if k < n {
        assert ContentAt(flights, k, base, size);
      } else {
        Restamp(size, SeedAt(base, k), sequences[k - n]);
      }
    }
    forall k | 0 <= k < n && Out(gs[k]) ensures Ticketed(ts, gs, k, base) {
      assert Ticketed(ts, flights, k, base);
    }
    forall t | 0 <= t < |ts| && ts[t].active ensures IsOut(gs, n, ts[t].sequence) {
      assert IsOut(flights, n, ts[t].sequence);
      var k :| 0 <= k < n && Out(flights[k]) && flights[k].slot.sequence == ts[t].sequence;
      assert gs[k] == flights[k];
    }
  }

  lemma HoldContent(flights: seq<Flight>, held: seq<nat>, base: u32, size: nat)
    requires size <= MAX_ECHO_DATA_BYTES && ContentOk(flights, base, size) && Reapable(flights, held)
    ensures ContentOk(Hold(flights, held), base, size) && SameOut(flights, Hold(flights, held))
  {
    hide SeedAt, Request, Accepts;
    forall k | 0 <= k < |flights| ensures ContentAt(Hold(flights, held), k, base, size) {
      assert ContentAt(flights, k, base, size);
      assert k in held ==> flights[k].place == Replied;
    }
  }

  lemma AnswerHeld(flights: seq<Flight>, gpio: Gpio, k: nat)
    requires HeldOk([], flights)
    ensures HeldOk([], AnswerOne(flights, gpio, k).0)
  {
    hide Respond;
  }

  // ---------------------------------------------------------------- the phase

  /** Errors that run_windowed_phase raises itself. */
  predicate Impossible(status: int) {
    status == EPROTO || status == EOVERFLOW || status == EDEADLK
  }

  /** run_windowed_phase and its local variables. */
  class WindowedPhase {
    const tickets: array<Ticket>
    const latency: array<nat>
    const count: nat
    const size: nat
    const seedBase: u32
    const window: nat
    const useBatch: bool
    var submitted: nat
    var completed: nat
    var inFlight: nat
    var flights: seq<Flight>
    var gpio: Gpio
    var script: seq<Move>

    ghost predicate Setup() {
      && tickets.Length == SLOT_COUNT && latency.Length == count && latency as object != tickets as object
      && size <= MAX_ECHO_DATA_BYTES && 0 < window <= SLOT_COUNT
    }

    /** The first `recorded` messages have their tickets; `held` are those that
        the last reap handed up. */
    ghost predicate Core(recorded: nat, held: seq<nat>)
      reads this`completed, this`flights, this`script, tickets
    {
      && Setup() && Tame(script) && completed <= recorded <= |flights| <= count
      && Matched(tickets[..], flights, recorded, seedBase) && ContentOk(flights, seedBase, size)
      && HeldOk(held, flights) && ActiveCount(tickets[..]) == recorded - completed
    }

    /** submitted = completed + in flight, and in flight is the number of active
        tickets and within the window. */
    ghost predicate Counts()
      reads this`submitted, this`completed, this`inFlight, this`flights
    {
      submitted == |flights| == completed + inFlight && inFlight <= window
    }

    ghost predicate Steady()
      reads this`submitted, this`completed, this`inFlight, this`flights, this`script, tickets
    {
      Core(|flights|, []) && Counts()
    }

    constructor (count: nat, size: nat, seedBase: u32, window: nat, useBatch: bool, gpio: Gpio, script: seq<Move>)
      requires size <= MAX_ECHO_DATA_BYTES && 0 < window <= SLOT_COUNT && Tame(script)
      ensures Steady() && fresh(tickets) && fresh(latency) && completed == 0
      ensures this.count == count && this.window == window && this.size == size && this.script == script
    {
      this.count, this.size, this.seedBase, this.window, this.useBatch := count, size, seedBase, window, useBatch;
      this.gpio, this.script := gpio, script;
      submitted, completed, inFlight, flights := 0, 0, 0, [];
      tickets := new Ticket[SLOT_COUNT](_ => Ticket(false, 0, 0, 0));
      latency := new nat[count](_ => 0);
      new;
      NoneActive(tickets[..]);
    }

    method FindTicket(sequence: u32) returns (t: nat)
      ensures t == FindActive(tickets[..], sequence, 0)
    {
      t := 0;
      while t < tickets.Length
        invariant t <= tickets.Length && FindActive(tickets[..], sequence, 0) == FindActive(tickets[..], sequence, t)
      {
        if tickets[t].active && tickets[t].sequence == sequence {
          return;
        }
        t := t + 1;
      }
    }

    method FindFreeTicket() returns (t: nat)
      ensures t == FindFree(tickets[..], 0)
    {
      t := 0;
      while t < tickets.Length
        invariant t <= tickets.Length && FindFree(tickets[..], 0) == FindFree(tickets[..], t)
      {
        if !tickets[t].active {
          return;
        }
        t := t + 1;
      }
    }

    // -------------------------------------------------------------- the channel

    /** Time passes: the firmware answers these messages. */
    method Elapse(answers: seq<nat>)
      requires Steady()
      modifies this`flights, this`gpio
      ensures Steady() && |flights| == |old(flights)|
    {
      hide Matched, ContentOk, HeldOk, Tame, AnswerOne;
      for i := 0 to |answers|
        invariant Steady() && |flights| == |old(flights)|
      {
        var r := AnswerOne(flights, gpio, answers[i]);
        AnswerContent(flights, gpio, answers[i], seedBase, size);
        AnswerHeld(flights, gpio, answers[i]);
        SameOutMatches(tickets[..], flights, r.0, |flights|, seedBase);
        flights, gpio := r.0, r.1;
      }
    }

    /** Takes the next move of the script. */
    method NextMove() returns (m: Move)
      requires Steady() && script != []
      modifies this`flights, this`gpio, this`script
      ensures Steady() && |flights| == |old(flights)| && |script| < |old(script)| && TameMove(m)
    {
      hide Matched, ContentOk, HeldOk;
      m := script[0];
      Elapse(m.answers);
      script := script[1..];
    }

    /** message_reap_batch, or message_receive for a limit of one, with a zero
        timeout. */
    method Reap(limit: nat) returns (status: int, messages: seq<Slot>, now: nat, held: seq<nat>)
      requires Steady() && 0 < limit
      modifies this`flights, this`gpio, this`script
      ensures status == 0 ==>
                && Core(|flights|, held) && messages == SlotsOf(flights, held) && 0 < |messages| <= limit
      ensures status != 0 ==> Steady()
      ensures Counts() && |flights| == |old(flights)|
      ensures !Impossible(status)
      ensures |script| <= |old(script)| && (status == 0 || status == EAGAIN ==> |script| < |old(script)|)
    {
      hide Matched, ContentOk, HeldOk, Tame, Reapable;
      messages, now, held := [], 0, [];
      if script == [] {
        return SCRIPT_ENDED, [], 0, [];
      }
      var m := NextMove();
      now := m.now;
      if m.error != 0 {
        return m.error, [], now, [];
      }
      if m.picks == [] || |m.picks| > limit || !Reapable(flights, m.picks) {
        return EAGAIN, [], now, [];
      }
      held := m.picks;
      ReapableInRange(flights, held);
      HoldContent(flights, held, seedBase, size);
      HoldIsHeld(flights, held);
      SameOutMatches(tickets[..], flights, Hold(flights, held), |flights|, seedBase);
      flights := Hold(flights, m.picks);
      HeldInRange(flights, held);
      messages := SlotsOf(flights, m.picks);
      status := 0;
    }

    /** message_submit_batch, or message_send for a batch of one, with a zero
        timeout. */
    method Submit(batch: seq<Slot>) returns (status: int, messages: seq<Slot>, now: nat)
      requires Steady() && batch != [] && Requested(batch, submitted, seedBase, size) && submitted + |batch| <= count
      modifies this`flights, this`gpio, this`script
      ensures status == 0 ==> 0 < |messages| <= |batch|
      ensures status != 0 ==> messages == []
      ensures |flights| == |old(flights)| + |messages| && Core(submitted, [])
      ensures status == 0 ==> TakenAt(messages, flights, submitted)
      ensures !Impossible(status)
      ensures |script| <= |old(script)| && (status == 0 || status == EAGAIN ==> |script| < |old(script)|)
    {
      hide Matched, ContentOk, HeldOk, Tame, FreshBatch, Request, Launch, Stamped, TakenAt, Requested;
      messages, now := [], 0;
      if script == [] {
        return SCRIPT_ENDED, [], 0;
      }
      var m := NextMove();
      now := m.now;
      if m.error != 0 {
        return m.error, [], now;
      }
      if m.sequences == [] || |m.sequences| > |batch| || !FreshBatch(flights, m.sequences) {
        return EAGAIN, [], now;
      }
      LaunchMatches(tickets[..], flights, batch, m.sequences, seedBase, size);
      LaunchedAt(flights, batch, m.sequences);
      messages := Stamped(batch, m.sequences);
      flights := Launch(flights, batch, m.sequences);
      status := 0;
    }

    // -------------------------------------------------------------- the loops

    /** complete_response for message k: the response is checked against the seed
        of the very request that it answers, and its latency has a place in the
        buffer. */
    method CompleteResponse(m: Slot, now: nat, k: nat, ghost rest: seq<nat>) returns (status: int)
      requires Core(|flights|, [k] + rest) && Counts() && k < |flights| && m == flights[k].slot
      modifies this`completed, this`inFlight, this`flights, tickets, latency
      ensures status == 0 && Core(|flights|, rest) && Counts()
      ensures flights == old(flights)[k := old(flights)[k].(place := Consumed)]
      ensures completed == old(completed) + 1 && Accepts(m, size, SeedAt(seedBase, k))
    {
      hide Matched, Accepts, Request, SeedAt, HeldOk, FindActive;
      HeldContent(flights, k, rest, seedBase, size);
      CompleteMatches(tickets[..], flights, k, seedBase);
      ConsumeContent(flights, k, rest, seedBase, size);
      var t := FindTicket(m.sequence);
      if t == tickets.Length {
        return EPROTO;
      }
      var ok := ValidateResponse(m, size, tickets[t].seed);
      if !ok {
        return EPROTO;
      }
      ActiveUpdate(tickets[..], t, tickets[t].(active := false));
      latency[completed] := if now >= tickets[t].start then now - tickets[t].start else 0;
      tickets[t] := tickets[t].(active := false);
      assert tickets[..] == old(tickets[..])[t := old(tickets[t]).(active := false)];
      flights := flights[k := flights[k].(place := Consumed)];
      inFlight := inFlight - 1;
      completed := completed + 1;
      status := 0;
    }

    /** The responses of one reap. */
    method CompleteAll(messages: seq<Slot>, now: nat, held: seq<nat>) returns (status: int)
      requires Core(|flights|, held) && Counts() && messages == SlotsOf(flights, held)
      modifies this`completed, this`inFlight, this`flights, tickets, latency
      ensures status == 0 && Steady() && |flights| == |old(flights)|
    {
      hide Matched, ContentOk, HeldOk, Request, SeedAt, Accepts;
      var index := 0;
      HeldInRange(flights, held);
      assert held[0..] == held;
      while index < |messages|
        invariant index <= |messages| == |held| && Core(|flights|, held[index..]) && Counts()
        invariant |flights| == |old(flights)|
        invariant forall i :: index <= i < |messages| ==> held[i] < |flights| && messages[i] == flights[held[i]].slot
      {
        var k := held[index];
        ghost var rest := held[index + 1..];
        assert held[index..] == [k] + rest;
        ghost var before := flights;
        status := CompleteResponse(messages[index], now, k, rest);
        SlotsStay(before, k, held, index + 1, messages, flights);
        if status != 0 {
          return;
        }
        index := index + 1;
      }
      assert held[index..] == [];
      status := 0;
    }

    /** The reaping loop: until nothing is in flight or nothing has come back. */
    method ReapRound() returns (status: int, progressed: bool)
      requires Steady()
      modifies this`completed, this`inFlight, this`flights, this`gpio, this`script, tickets, latency
      ensures Steady() && |flights| == |old(flights)| && !Impossible(status)
      ensures |script| <= |old(script)| && (status == 0 && progressed ==> |script| < |old(script)|)
      ensures status == 0 && !progressed ==> inFlight == old(inFlight)
      ensures status != 0 ==> inFlight > 0
    {
      hide Core, Impossible;
      progressed := false;
      status := 0;
      ImpossibleErrors();
      while inFlight > 0
        invariant Steady() && |flights| == |old(flights)| && status == 0
        invariant |script| <= |old(script)| && (progressed ==> |script| < |old(script)|)
        invariant !progressed ==> inFlight == old(inFlight)
        decreases |script|
      {
        var limit := if useBatch then inFlight else 1;
        var messages, now, held;
        status, messages, now, held := Reap(limit);
        if status == EAGAIN {
          status := 0;
          break;
        }
        if status != 0 {
          return;
        }
        status := CompleteAll(messages, now, held);
        if status != 0 {
          return;
        }
        progressed := true;
      }
    }

    /** The requests with the numbers from `submitted` on. */
    method BuildBatch(n: nat) returns (batch: seq<Slot>)
      requires size <= MAX_ECHO_DATA_BYTES
      ensures |batch| == n && Requested(batch, submitted, seedBase, size)
    {
      hide Request, SeedAt;
      batch := [];
      for index := 0 to n
        invariant |batch| == index && Requested(batch, submitted, seedBase, size)
      {
        var m := MakeRequest(0, size, SeedAt(seedBase, submitted + index));
        batch := batch + [m];
      }
    }

    /** A ticket for one request just taken. */
    method Record(m: Slot, now: nat, index: nat) returns (status: int)
      requires submitted + index < |flights| && Core(submitted + index, [])
      requires m == flights[submitted + index].slot && Out(flights[submitted + index])
      requires submitted == completed + inFlight && inFlight + index < window
      modifies tickets
      ensures status == 0 && Core(submitted + index + 1, [])
    {
      hide Matched, ContentOk, HeldOk, SeedAt, FindActive, FindFree;
      SomeFree(tickets[..]);
      var found := FindTicket(m.sequence);
      var t := FindFreeTicket();
      RecordMatches(tickets[..], flights, submitted + index, seedBase, t, now);
      if found < tickets.Length {
        return EPROTO;
      }
      if t == tickets.Length {
        return EOVERFLOW;
      }
      var ticket := Ticket(true, m.sequence, SeedAt(seedBase, submitted + index), now);
      ActiveUpdate(tickets[..], t, ticket);
      tickets[t] := ticket;
      assert tickets[..] == old(tickets[..])[t := ticket];
      status := 0;
    }

    /** Tickets for the requests that the driver took. */
    method RecordAll(messages: seq<Slot>, now: nat) returns (status: int)
      requires Core(submitted, []) && |flights| == submitted + |messages|
      requires submitted == completed + inFlight && inFlight + |messages| <= window
      requires TakenAt(messages, flights, submitted)
      modifies this`submitted, this`inFlight, tickets
      ensures status == 0 && Steady() && inFlight == old(inFlight) + |messages|
    {
      hide Core;
      var index := 0;
      while index < |messages|
        invariant index <= |messages| && Core(submitted + index, [])
        invariant submitted == old(submitted) && inFlight == old(inFlight)
      {
        status := Record(messages[index], now, index);
        if status != 0 {
          return;
        }
        index := index + 1;
      }
      submitted := submitted + |messages|;
      inFlight := inFlight + |messages|;
      status := 0;
    }

    /** The submitting loop: until the window is full, everything is submitted,
        or the driver takes no more. */
    method SubmitRound() returns (status: int, progressed: bool)
      requires Steady()
      modifies this`submitted, this`inFlight, this`flights, this`gpio, this`script, tickets
      ensures status == 0 ==> Steady()
      ensures !Impossible(status) && (status != 0 ==> completed < count)
      ensures |script| <= |old(script)| && (status == 0 && progressed ==> |script| < |old(script)|)
      ensures status == 0 && !progressed ==> inFlight == old(inFlight)
    {
      hide Impossible, Matched, ContentOk, HeldOk, Requested;
      progressed := false;
      status := 0;
      ImpossibleErrors();
      while submitted < count && inFlight < window
        invariant Steady() && status == 0
        invariant |script| <= |old(script)| && (progressed ==> |script| < |old(script)|)
        invariant !progressed ==> inFlight == old(inFlight)
        decreases |script|
      {
        var n := if useBatch then window - inFlight else 1;
        if n > count - submitted {
          n := count - submitted;
        }
        var batch := BuildBatch(n);
        var messages, now;
        status, messages, now := Submit(batch);
        if status == EAGAIN {
          status := 0;
          break;
        }
        if status != 0 {
          return;
        }
        status := RecordAll(messages, now);
        if status != 0 {
          return;
        }
        progressed := true;
      }
    }

    /** sg2002_rtos_wait: an error, the timeout, or some of the events. */
    method Wait(wantIn: bool, wantOut: bool) returns (status: int, revIn: bool, revOut: bool)
      requires Steady() && (wantIn || wantOut)
      modifies this`flights, this`gpio, this`script
      ensures Steady() && |flights| == |old(flights)| && !Impossible(status)
      ensures status == 1 ==> ((revIn && wantIn) || (revOut && wantOut)) && |script| < |old(script)|
    {
      hide Matched, ContentOk, HeldOk;
      revIn, revOut := false, false;
      if script == [] {
        return SCRIPT_ENDED, false, false;
      }
      var m := NextMove();
      if m.error != 0 {
        return m.error, false, false;
      }
      if !m.ready {
        return 0, false, false;
      }
      revIn, revOut := wantIn, wantOut;
      status := 1;
    }

    /** run_windowed_phase. */
    method Run() returns (status: int)
      requires Steady() && submitted == completed == inFlight == 0
      modifies this`submitted, this`completed, this`inFlight, this`flights, this`gpio, this`script, tickets, latency
      ensures !Impossible(status) && completed <= count
      ensures status == 0 <==> completed == count
      ensures status == 0 ==>
                && Steady() && |flights| == count
                && forall k :: 0 <= k < count ==>
                     && flights[k].place == Consumed && Accepts(flights[k].slot, size, SeedAt(seedBase, k))
                     && Bears(flights[k].slot, size, (seedBase + k) % 0x1_0000_0000)
    {
      hide Core, Impossible, Bears, Accepts;
      ImpossibleErrors();
      while completed < count
        invariant Steady()
        decreases |script|
      {
        var reaped, sent;
        status, reaped := ReapRound();
        if status != 0 {
          CountsInRange();
          return;
        }
        status, sent := SubmitRound();
        if status != 0 {
          return;
        }
        CountsInRange();
        if completed == count {
          break;
        }
        if !reaped && !sent {
          var wantIn := inFlight > 0;
          var wantOut := submitted < count && inFlight < window;
          if !wantIn && !wantOut {
            return EDEADLK;
          }
          var revIn, revOut;
          status, revIn, revOut := Wait(wantIn, wantOut);
          if status != 1 {
            status := if status == 0 then ETIMEDOUT else status;
            return;
          }
          if !(revIn && wantIn) && !(revOut && wantOut) {
            return EIO;
          }
        }
      }
      CountsInRange();
      AllConsumed();
      status := 0;
    }

    lemma CountsInRange()
      requires Steady()
      ensures Setup() && completed + inFlight == submitted <= count && |flights| == submitted
      ensures inFlight == ActiveCount(tickets[..]) <= window <= SLOT_COUNT
    {
    }

    /** Without an active ticket every message has been dealt with, as a response
        accepted for its own seed. */
    lemma AllConsumed()
      requires Steady() && completed == count
      ensures |flights| == count
      ensures forall k :: 0 <= k < count ==>
                && flights[k].place == Consumed && Accepts(flights[k].slot, size, SeedAt(seedBase, k))
                && Bears(flights[k].slot, size, (seedBase + k) % 0x1_0000_0000)
    {
      hide HeldOk, Accepts, Request, Bears;
      forall k | 0 <= k < |flights|
        ensures flights[k].place == Consumed && Accepts(flights[k].slot, size, SeedAt(seedBase, k))
        ensures Bears(flights[k].slot, size, (seedBase + k) % 0x1_0000_0000)
      {
        if Out(flights[k]) {
          assert Ticketed(tickets[..], flights, k, seedBase);
          ActivePositive(tickets[..], FindActive(tickets[..], flights[k].slot.sequence, 0));
        }
        assert ContentAt(flights, k, seedBase, size);
        AcceptsExactly(flights[k].slot, size, SeedAt(seedBase, k));
      }
    }
  }

  lemma ImpossibleErrors()
    ensures !Impossible(0) && !Impossible(ETIMEDOUT) && !Impossible(SCRIPT_ENDED) && !Impossible(EIO)
  {
  }

  lemma {:induction false} ActivePositive(ts: seq<Ticket>, i: nat)
    requires i < |ts| && ts[i].active
    ensures ActiveCount(ts) > 0
  {
    if i < |ts| - 1 {
      ActivePositive(ts[..|ts| - 1], i);
    }
  }

  lemma HeldContent(flights: seq<Flight>, k: nat, rest: seq<nat>, base: u32, size: nat)
    requires size <= MAX_ECHO_DATA_BYTES && ContentOk(flights, base, size) && HeldOk([k] + rest, flights)
    ensures k < |flights| && flights[k].place == Held && Accepts(flights[k].slot, size, SeedAt(base, k))
  {
    hide Accepts, SeedAt, Request;
    assert ([k] + rest)[0] == k;
    assert k in [k] + rest;
    assert ContentAt(flights, k, base, size);
  }

  lemma ConsumeContent(flights: seq<Flight>, k: nat, rest: seq<nat>, base: u32, size: nat)
    requires size <= MAX_ECHO_DATA_BYTES && ContentOk(flights, base, size) && HeldOk([k] + rest, flights)
    requires k < |flights|
    ensures ContentOk(flights[k := flights[k].(place := Consumed)], base, size)
    ensures HeldOk(rest, flights[k := flights[k].(place := Consumed)])
  {
    hide Accepts, SeedAt, Request;
    var held := [k] + rest;
    var gs := flights[k := flights[k].(place := Consumed)];
    forall j | 0 <= j < |gs| ensures ContentAt(gs, j, base, size) {
      assert ContentAt(flights, j, base, size);
    }
    forall i | 0 <= i < |rest| ensures rest[i] < |gs| && rest[i] != k {
      assert held[i + 1] == rest[i] && held[0] == k;
    }
    forall i, j | 0 <= i < j < |rest| ensures rest[i] != rest[j] {
      assert held[i + 1] == rest[i] && held[j + 1] == rest[j];
    }
    forall j | 0 <= j < |gs| ensures gs[j].place == Held <==> j in rest {
      assert j in held <==> j == k || j in rest;
    }
  }

  /** Dealing with one message leaves the others of the batch as they were. */
  lemma SlotsStay(before: seq<Flight>, k: nat, held: seq<nat>, n: nat, messages: seq<Slot>, after: seq<Flight>)
    requires k < |before| && after == before[k := before[k].(place := Consumed)]
    requires 0 < n <= |held| == |messages|
    requires forall i :: n - 1 <= i < |messages| ==> held[i] < |before| && messages[i] == before[held[i]].slot
    ensures forall i :: n <= i < |messages| ==> held[i] < |after| && messages[i] == after[held[i]].slot
  {
  }

  lemma ReapableInRange(flights: seq<Flight>, held: seq<nat>)
    requires Reapable(flights, held)
    ensures InRange(flights, held)
  {
  }

  lemma HeldInRange(flights: seq<Flight>, held: seq<nat>)
    requires HeldOk(held, flights)
    ensures InRange(flights, held)
  {
  }
}
