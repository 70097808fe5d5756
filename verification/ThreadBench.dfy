/** The threaded benchmark as a whole: its workers, its dispatcher and the
    channel, in any interleaving. A section under the phase lock is one step;
    each library call and each poll of the dispatcher is another. */
module ThreadBench {
  import opened Wrap
  import opened Shm
  import opened App
  import opened Shares
  import opened Workload
  import opened Flights
  import opened ThreadPhase

  /** What the dispatcher does next. Stopped holds the result of dispatch_phase. */
  datatype Pc =
    | Gathering | Check | Look | Reap(requested: int) | Finish(held: seq<nat>)
    | Choose | Submit(selected: seq<nat>) | Commit(selected: seq<nat>, sequences: seq<u32>)
    | Settle | Poll(wantIn: bool, wantOut: bool) | Consume | Stopped(status: int)

  datatype State = State(p: Phase, pc: Pc, progressed: bool, flights: seq<Flight>, gpio: Gpio)

  datatype Label =
    | WorkerStep(worker: nat)
    | Dispatch
    | Taken(sequences: seq<u32>)
    | Again
    | Reaped(held: seq<nat>)
    | HardError(code: int)
    | Answer(flight: nat)
    | Room
    | Timeout

  const ETIMEDOUT: int := -110

  predicate AnyUnborn(p: Phase) {
    exists i :: 0 <= i < |p.workers| && p.workers[i].rest.Unborn?
  }

  /** The requests taken from the front of a batch, under their sequences. */
  function Launched(p: Phase, selected: seq<nat>, sequences: seq<u32>): (r: seq<Flight>)
    requires Indices(p, selected) && |sequences| <= |selected|
    ensures |r| == |sequences|
  {
    seq(|sequences|, i requires 0 <= i < |sequences| =>
      Flight(selected[i], p.workers[selected[i]].request.(sequence := sequences[i]), Sent))
  }

  /** The end of a round of dispatch_phase. */
  function RoundEnd(progressed: bool): Pc {
    if progressed then Check else Settle
  }

  function Halt(s: State, status: int): State {
    s.(p := Fail(s.p, status), pc := Stopped(status))
  }

  function OnDispatch(s: State): State
    requires s.p.size <= MAX_ECHO_DATA_BYTES
  {
    var p := s.p;
    match s.pc
    case Gathering =>
      if AnyUnborn(p) then s
      else s.(p := OpenGate(p), pc := Check)
    case Check =>
      if p.error != 0 then Halt(s, p.error)
      else if p.completed == p.total then s.(pc := Stopped(0))
      else s.(pc := Look, progressed := false)
    case Look =>
      if p.inFlight == 0 then s.(pc := Choose) else s.(pc := Reap(p.inFlight))
    case Finish(held) =>
      if InRange(s.flights, held) then
        var r := CompleteUpTo(p, SlotsOf(s.flights, held), |held|);
        if r.ok then s.(p := r.phase, pc := Choose, progressed := true, flights := Dealt(s.flights))
        else s.(p := r.phase, pc := Stopped(EPROTO))
      else s
    case Choose =>
      var r := SelectUpTo(p, |p.workers|);
      s.(p := r.phase, pc := if r.indices == [] then RoundEnd(s.progressed) else Submit(r.indices))
    case Commit(selected, sequences) =>
      if Indices(p, selected) && |sequences| <= |selected| then
        var r := CommitUpTo(p, selected, sequences, |selected|);
        if r.ok then s.(p := r.phase, pc := RoundEnd(s.progressed || sequences != []),
            progressed := s.progressed || sequences != [])
        else s.(p := r.phase, pc := Stopped(EPROTO))
      else s
    case Settle =>
      if p.error != 0 then Halt(s, p.error)
      else if p.completed == p.total then s.(pc := Check)
      else s.(pc := Poll(p.inFlight > 0, p.ready > 0))
    case Poll(wantIn, wantOut) =>
      if p.wake > 0 then s.(pc := Consume)
      else if wantIn && AnyReplied(s.flights) then s.(pc := Check)
      else s
    case Consume => s.(p := p.(wake := 0), pc := Check)
    case Reap(_) => s
    case Submit(_) => s
    case Stopped(_) => s
  }

  function OnTaken(s: State, sequences: seq<u32>): State {
    if s.pc.Submit? && 0 < |sequences| <= |s.pc.selected| && Indices(s.p, s.pc.selected) &&
        FreshBatch(s.flights, sequences)
    then s.(pc := Commit(s.pc.selected, sequences), flights := s.flights + Launched(s.p, s.pc.selected, sequences))
    else s
  }

  function OnAgain(s: State): State {
    if s.pc.Submit? then s.(pc := Commit(s.pc.selected, []))
    else if s.pc.Reap? then s.(pc := Choose)
    else s
  }

  function OnReaped(s: State, held: seq<nat>): State {
    if s.pc.Reap? && 0 < |held| <= s.pc.requested && Reapable(s.flights, held)
    then s.(pc := Finish(held), flights := Hold(s.flights, held))
    else s
  }

  /** The library reports an error: the selected workers are ready again, and
      the phase stops. */
  function OnHardError(s: State, code: int): State {
    if code >= 0 then s
    else if s.pc.Submit? && Indices(s.p, s.pc.selected) then
      Halt(s.(p := CommitUpTo(s.p, s.pc.selected, [], |s.pc.selected|).phase), code)
    else if s.pc.Reap? then Halt(s, code)
    else s
  }

  function OnAnswer(s: State, k: nat): State {
    var r := AnswerOne(s.flights, s.gpio, k);
    s.(flights := r.0, gpio := r.1)
  }

  /** One step; a label that is not enabled changes nothing. */
  function Step(s: State, l: Label): State
    requires s.p.size <= MAX_ECHO_DATA_BYTES
  {
    match l
    case WorkerStep(i) => if i < |s.p.workers| then s.(p := WorkerRuns(s.p, i)) else s
    case Dispatch => OnDispatch(s)
    case Taken(sequences) => OnTaken(s, sequences)
    case Again => OnAgain(s)
    case Reaped(held) => OnReaped(s, held)
    case HardError(code) => OnHardError(s, code)
    case Answer(k) => OnAnswer(s, k)
    case Room => if s.pc.Poll? && s.pc.wantOut then s.(pc := Check) else s
    case Timeout => if s.pc.Poll? then Halt(s, ETIMEDOUT) else s
  }

  function NewWorker(total: nat, workers: nat, i: nat): Worker
    requires workers > 0
  {
    Worker(Starting, Unborn, WorkerTarget(total, workers, i), 0, 0, RawSlot(0, 0, Padded([])), 0)
  }

  function NewWorkers(total: nat, workers: nat, k: nat): (r: seq<Worker>)
    requires workers > 0
    ensures |r| == k
    ensures forall i :: 0 <= i < k ==> r[i] == NewWorker(total, workers, i)
  {
    if k == 0 then [] else NewWorkers(total, workers, k - 1) + [NewWorker(total, workers, k - 1)]
  }

  function NewPhase(ws: seq<Worker>, size: nat, seedBase: u32, total: nat): Phase {
    Phase(ws, size, seedBase, total, 0, 0, 0, 0, false, false, 0, 0, [])
  }

  function Start(total: nat, workers: nat, size: nat, seedBase: u32, gpio: Gpio): State
    requires workers > 0
  {
    State(NewPhase(NewWorkers(total, workers, workers), size, seedBase, total), Gathering, false, [], gpio)
  }

  // ---------------------------------------------------------------- invariant

  /** The sequence under which w's request is out, or zero. Between the driver's
      answer and the dispatcher's next section the worker does not know it yet. */
  function SequenceOf(p: Phase, selected: seq<nat>, sequences: seq<u32>, w: nat): u32
    requires w < |p.workers|
  {
    var i := At(selected, w);
    if i < |sequences| then sequences[i]
    else if p.workers[w].state == InFlight then p.workers[w].sequence
    else 0
  }

  /** A message that is out belongs to the worker that waits for it. */
  predicate Live(p: Phase, selected: seq<nat>, sequences: seq<u32>, f: Flight)
    requires p.size <= MAX_ECHO_DATA_BYTES
  {
    && f.owner < |p.workers| && f.slot.sequence != 0
    && SequenceOf(p, selected, sequences, f.owner) == f.slot.sequence
    && (f.place == Sent ==> f.slot == Request(f.slot.sequence, p.size, p.workers[f.owner].seed))
    && (f.place != Sent ==> Accepts(f.slot, p.size, p.workers[f.owner].seed))
  }

  predicate HasFlight(flights: seq<Flight>, w: nat) {
    exists k :: 0 <= k < |flights| && flights[k].owner == w && flights[k].place != Consumed
  }

  predicate AllLive(p: Phase, selected: seq<nat>, sequences: seq<u32>, flights: seq<Flight>)
    requires p.size <= MAX_ECHO_DATA_BYTES
  {
    forall k :: 0 <= k < |flights| && flights[k].place != Consumed ==> Live(p, selected, sequences, flights[k])
  }

  predicate OneEach(flights: seq<Flight>) {
    forall j, k :: 0 <= j < k < |flights| && flights[j].place != Consumed && flights[k].place != Consumed ==>
      flights[j].owner != flights[k].owner
  }

  predicate AllOut(p: Phase, selected: seq<nat>, sequences: seq<u32>, flights: seq<Flight>) {
    forall w :: 0 <= w < |p.workers| && SequenceOf(p, selected, sequences, w) != 0 ==> HasFlight(flights, w)
  }

  predicate AllDifferent(p: Phase, selected: seq<nat>, sequences: seq<u32>) {
    forall v, w :: 0 <= v < w < |p.workers| && SequenceOf(p, selected, sequences, v) != 0 ==>
      SequenceOf(p, selected, sequences, v) != SequenceOf(p, selected, sequences, w)
  }

  /** Workers in flight and messages that are out correspond one to one. */
  predicate Tied(p: Phase, selected: seq<nat>, sequences: seq<u32>, flights: seq<Flight>) {
    && p.size <= MAX_ECHO_DATA_BYTES
    && AllLive(p, selected, sequences, flights) && OneEach(flights)
    && AllOut(p, selected, sequences, flights) && AllDifferent(p, selected, sequences)
  }

  function Picked(pc: Pc): seq<nat> {
    if pc.Submit? || pc.Commit? then pc.selected else []
  }

  function Pledged(pc: Pc): seq<u32> {
    if pc.Commit? then pc.sequences else []
  }

  function HeldBy(pc: Pc): seq<nat> {
    if pc.Finish? then pc.held else []
  }

  /** What the dispatcher knows at each point. */
  ghost predicate PcOk(s: State) {
    && Selected(s.p, Picked(s.pc)) && |Pledged(s.pc)| <= |Picked(s.pc)|
    && (forall i :: 0 <= i < |Pledged(s.pc)| ==> Pledged(s.pc)[i] != 0)
    && HeldOk(HeldBy(s.pc), s.flights)
    && (s.pc.Gathering? <==> !s.p.go)
    && (s.pc.Poll? ==>
          && (s.p.inFlight > 0 ==> s.pc.wantIn) && (s.p.ready > 0 ==> s.pc.wantOut || s.p.wake > 0)
          && s.p.completed < s.p.total)
    && (s.pc.Stopped? ==> s.pc.status == 0 && s.p.completed == s.p.total)
  }

  predicate Shared(p: Phase) {
    |p.workers| > 0 &&
    forall i :: 0 <= i < |p.workers| ==> p.workers[i].target == WorkerTarget(p.total, |p.workers|, i)
  }

  ghost predicate Good(s: State) {
    && s.p.size <= MAX_ECHO_DATA_BYTES
    && if s.p.stop then s.pc.Stopped?
       else Sound(s.p) && Shared(s.p) && Tied(s.p, Picked(s.pc), Pledged(s.pc), s.flights) && PcOk(s)
  }
}
