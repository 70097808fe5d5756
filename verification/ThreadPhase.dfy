/** The state that the threaded benchmark keeps under its phase lock, and the
    sections of its dispatcher and workers that change it. */
module ThreadPhase {
  import opened Wrap
  import opened Shm
  import opened Shares
  import opened Workload

  const EPROTO: int := -71

  datatype WorkerState = Starting | Idle | Ready | Submitting | InFlight | Complete | Exited

  /** Where a worker thread rests while it does not hold the lock; a sleeper is
      woken once its condition variable has been signalled. */
  datatype Rest = Unborn | Gate(woken: bool) | Sleeping(woken: bool) | Gone

  datatype Worker = Worker(
    state: WorkerState, rest: Rest, target: nat, issued: nat, seed: u32, request: Slot, sequence: u32)

  /** One operation of one worker. */
  datatype Job = Job(worker: nat, operation: nat)

  /** struct thread_phase, with a record of the finished operations. */
  datatype Phase = Phase(
    workers: seq<Worker>,
    size: nat, seedBase: u32, total: nat,
    completed: int, ready: int, submitting: int, inFlight: int,
    go: bool, stop: bool, error: int, wake: nat,
    finished: seq<Job>)

  function SeedOf(base: u32, workers: nat, job: Job): u32 {
    SeedAt(base, Assigned(workers, job.worker, job.operation))
  }

  /** Operation number n of the phase has the seed base + n in uint32_t. */
  lemma SeedOfIs(base: u32, workers: nat, job: Job)
    ensures SeedOf(base, workers, job) == (base + job.operation * workers + job.worker) % 0x1_0000_0000
  {
  }

  /** No two operations of a phase of up to 2^32 have the same seed. */
  lemma SeedsOfSharesDiffer(base: u32, total: nat, workers: nat, a: Job, b: Job)
    requires total <= TWO_32 && a.worker < workers && b.worker < workers
    requires a.operation < WorkerTarget(total, workers, a.worker)
    requires b.operation < WorkerTarget(total, workers, b.worker)
    requires SeedOf(base, workers, a) == SeedOf(base, workers, b)
    ensures a == b
  {
    hide WorkerTarget, Assigned;
    ShareIsRange(total, workers, a.worker, a.operation);
    ShareIsRange(total, workers, b.worker, b.operation);
    SeedsDiffer(base, Assigned(workers, a.worker, a.operation), Assigned(workers, b.worker, b.operation));
    NumbersDiffer(workers, a.worker, a.operation, b.worker, b.operation);
  }

  // ---------------------------------------------------------------- sections under the lock

  function Awake(w: Worker): Worker {
    match w.rest
    case Gate(_) => w.(rest := Gate(true))
    case Sleeping(_) => w.(rest := Sleeping(true))
    case Unborn => w
    case Gone => w
  }

  /** fail_phase_locked. */
  function Fail(p: Phase, error: int): Phase {
    p.(error := if p.error == 0 then error else p.error, stop := true, wake := p.wake + 1,
       workers := seq(|p.workers|, i requires 0 <= i < |p.workers| => Awake(p.workers[i])))
  }

  /** find_in_flight_worker: the first match, or the number of workers. */
  function FindFrom(ws: seq<Worker>, sequence: u32, i: nat): (r: nat)
    requires i <= |ws|
    ensures i <= r <= |ws|
    ensures r < |ws| ==> ws[r].state == InFlight && ws[r].sequence == sequence
    ensures forall j :: i <= j < r ==> !(ws[j].state == InFlight && ws[j].sequence == sequence)
    decreases |ws| - i
  {
    if i == |ws| || (ws[i].state == InFlight && ws[i].sequence == sequence) then i
    else FindFrom(ws, sequence, i + 1)
  }

  datatype Selection = Selection(phase: Phase, indices: seq<nat>)

  /** A ready worker joins the batch. */
  function SelectOne(p: Phase, i: nat): (q: Phase)
    requires i < |p.workers|
    ensures q.workers == p.workers[i := p.workers[i].(state := Submitting)]
  {
    p.(workers := p.workers[i := p.workers[i].(state := Submitting)], ready := p.ready - 1,
        submitting := p.submitting + 1)
  }

  /** The first loop of submit_ready_workers, over the first k workers. */
  function SelectUpTo(p: Phase, k: nat): (r: Selection)
    requires k <= |p.workers|
    ensures |r.phase.workers| == |p.workers|
    ensures r.phase.workers[k..] == p.workers[k..]
  {
    if k == 0 then Selection(p, [])
    else
      var s := SelectUpTo(p, k - 1);
      assert s.phase.workers[k - 1..][1..] == s.phase.workers[k..] && p.workers[k - 1..][1..] == p.workers[k..];
      var w := s.phase.workers[k - 1];
      if w.state != Ready then s
      else Selection(SelectOne(s.phase, k - 1), s.indices + [k - 1])
  }

  datatype Result = Result(ok: bool, phase: Phase)

  predicate Indices(p: Phase, selected: seq<nat>) {
    forall i :: 0 <= i < |selected| ==> selected[i] < |p.workers|
  }

  /** The requests of the selected workers. */
  function RequestsOf(p: Phase, selected: seq<nat>): (r: seq<Slot>)
    requires Indices(p, selected)
    ensures |r| == |selected|
  {
    seq(|selected|, i requires 0 <= i < |selected| => p.workers[selected[i]].request)
  }

  /** What submit_ready_workers does with the i-th selected worker: in flight
      if the driver took its request, else ready again. */
  function CommitOne(p: Phase, worker: nat, taken: bool, sequence: u32): (r: Result)
    requires worker < |p.workers|
    ensures |r.phase.workers| == |p.workers|
  {
    var w := p.workers[worker];
    if !taken then
      Result(true, p.(workers := p.workers[worker := w.(state := Ready)],
                      submitting := p.submitting - 1, ready := p.ready + 1))
    else if sequence == 0 || FindFrom(p.workers, sequence, 0) < |p.workers| then
      Result(false, Fail(p, EPROTO))
    else
      Result(true, p.(workers := p.workers[worker := w.(state := InFlight, sequence := sequence)],
                      submitting := p.submitting - 1, inFlight := p.inFlight + 1))
  }

  function CommitUpTo(p: Phase, selected: seq<nat>, sequences: seq<u32>, k: nat): (r: Result)
    requires Indices(p, selected) && |sequences| <= |selected| && k <= |selected|
    ensures |r.phase.workers| == |p.workers|
  {
    if k == 0 then Result(true, p)
    else
      var r := CommitUpTo(p, selected, sequences, k - 1);
      if !r.ok then r
      else CommitOne(r.phase, selected[k - 1], k - 1 < |sequences|, if k - 1 < |sequences| then sequences[k - 1] else 0)
  }

  /** What reap_ready_responses does with one response. */
  function CompleteOne(p: Phase, m: Slot): (r: Result)
    requires p.size <= MAX_ECHO_DATA_BYTES
    ensures |r.phase.workers| == |p.workers| && r.phase.size == p.size
  {
    var i := FindFrom(p.workers, m.sequence, 0);
    if i == |p.workers| || !Accepts(m, p.size, p.workers[i].seed) then Result(false, Fail(p, EPROTO))
    else
      var w := p.workers[i];
      Result(true, p.(workers := p.workers[i := Awake(w.(state := Complete))],
                      inFlight := p.inFlight - 1, completed := p.completed + 1,
                      finished := p.finished + [Job(i, if w.issued > 0 then w.issued - 1 else 0)]))
  }

  function CompleteUpTo(p: Phase, messages: seq<Slot>, k: nat): (r: Result)
    requires p.size <= MAX_ECHO_DATA_BYTES && k <= |messages|
    ensures |r.phase.workers| == |p.workers| && r.phase.size == p.size
  {
    if k == 0 then Result(true, p)
    else
      var r := CompleteUpTo(p, messages, k - 1);
      if !r.ok then r else CompleteOne(r.phase, messages[k - 1])
  }

  /** The part of worker_main from the test of its for loop to the wait: the
      next operation becomes ready, or the worker leaves. */
  function NextOperation(p: Phase, i: nat): Phase
    requires i < |p.workers| && p.size <= MAX_ECHO_DATA_BYTES
  {
    var w := p.workers[i];
    if w.issued < w.target && !p.stop then
      var seed := SeedOf(p.seedBase, |p.workers|, Job(i, w.issued));
      p.(workers := p.workers[i := w.(state := Ready, rest := Sleeping(false), issued := w.issued + 1,
                                      seed := seed, request := Request(0, p.size, seed))],
         ready := p.ready + 1, wake := p.wake + 1)
    else p.(workers := p.workers[i := w.(state := Exited, rest := Gone)])
  }

  /** What a worker thread does when it gets the lock. */
  function WorkerRuns(p: Phase, i: nat): Phase
    requires i < |p.workers| && p.size <= MAX_ECHO_DATA_BYTES
  {
    var w := p.workers[i];
    match w.rest
    case Unborn =>
      if !p.go && !p.stop then p.(workers := p.workers[i := w.(state := Idle, rest := Gate(false))])
      else NextOperation(p.(workers := p.workers[i := w.(state := Idle, rest := Gate(false))]), i)
    case Gate(_) =>
      if !p.go && !p.stop then p.(workers := p.workers[i := w.(rest := Gate(false))])
      else NextOperation(p, i)
    case Sleeping(_) =>
      if w.state != Complete && !p.stop then p.(workers := p.workers[i := w.(rest := Sleeping(false))])
      else NextOperation(p.(workers := p.workers[i := if p.stop then w else w.(state := Idle)]), i)
    case Gone => p
  }

  /** run_phase opens the gate. */
  function OpenGate(p: Phase): Phase {
    p.(go := true,
       workers := seq(|p.workers|, i requires 0 <= i < |p.workers| =>
         if p.workers[i].rest.Gate? then Awake(p.workers[i]) else p.workers[i]))
  }

  // ---------------------------------------------------------------- counting

  function Count(ws: seq<Worker>, state: WorkerState): (n: nat)
    ensures n <= |ws|
  {
    if ws == [] then 0
    else Count(ws[..|ws| - 1], state) + if ws[|ws| - 1].state == state then 1 else 0
  }

  function IssuedBy(ws: seq<Worker>): nat {
    if ws == [] then 0 else IssuedBy(ws[..|ws| - 1]) + ws[|ws| - 1].issued
  }

  function TargetsOf(ws: seq<Worker>): nat {
    if ws == [] then 0 else TargetsOf(ws[..|ws| - 1]) + ws[|ws| - 1].target
  }

  lemma {:induction false} CountUpdate(ws: seq<Worker>, i: nat, w: Worker, state: WorkerState)
    requires i < |ws|
    ensures Count(ws[i := w], state) + (if ws[i].state == state then 1 else 0)
         == Count(ws, state) + (if w.state == state then 1 else 0)
  {
    var n := |ws| - 1;
    if i == n {
      assert ws[i := w][..n] == ws[..n];
    } else {
      assert ws[i := w][..n] == ws[..n][i := w];
      CountUpdate(ws[..n], i, w, state);
    }
  }

  lemma {:induction false} SumsUpdate(ws: seq<Worker>, i: nat, w: Worker)
    requires i < |ws|
    ensures IssuedBy(ws[i := w]) + ws[i].issued == IssuedBy(ws) + w.issued
    ensures TargetsOf(ws[i := w]) + ws[i].target == TargetsOf(ws) + w.target
  {
    var n := |ws| - 1;
    if i == n {
      assert ws[i := w][..n] == ws[..n];
    } else {
      assert ws[i := w][..n] == ws[..n][i := w];
      SumsUpdate(ws[..n], i, w);
    }
  }

  /** Waking threads changes no count. */
  lemma {:induction false} SameCounts(ws: seq<Worker>, vs: seq<Worker>, state: WorkerState)
    requires |ws| == |vs|
    requires forall i :: 0 <= i < |ws| ==>
      vs[i].state == ws[i].state && vs[i].issued == ws[i].issued && vs[i].target == ws[i].target
    ensures Count(vs, state) == Count(ws, state) && IssuedBy(vs) == IssuedBy(ws) && TargetsOf(vs) == TargetsOf(ws)
  {
    if ws != [] {
      SameCounts(ws[..|ws| - 1], vs[..|vs| - 1], state);
    }
  }

  lemma {:induction false} CountIsPositive(ws: seq<Worker>, i: nat, state: WorkerState)
    requires i < |ws| && ws[i].state == state
    ensures Count(ws, state) > 0
  {
    if i < |ws| - 1 {
      CountIsPositive(ws[..|ws| - 1], i, state);
    }
  }

  lemma {:induction false} SomeCounted(ws: seq<Worker>, state: WorkerState) returns (i: nat)
    requires Count(ws, state) > 0
    ensures i < |ws| && ws[i].state == state
  {
    i := |ws| - 1;
    if ws[i].state != state {
      i := SomeCounted(ws[..i], state);
    }
  }

  /** Nobody has issued more than it should. */
  lemma {:induction false} IssuedWithinTargets(ws: seq<Worker>)
    requires forall i :: 0 <= i < |ws| ==> ws[i].issued <= ws[i].target
    ensures IssuedBy(ws) <= TargetsOf(ws)
    ensures IssuedBy(ws) == TargetsOf(ws) ==> forall i :: 0 <= i < |ws| ==> ws[i].issued == ws[i].target
  {
    if ws != [] {
      IssuedWithinTargets(ws[..|ws| - 1]);
      if IssuedBy(ws) == TargetsOf(ws) {
        forall i | 0 <= i < |ws| ensures ws[i].issued == ws[i].target {
          if i < |ws| - 1 {
            assert ws[..|ws| - 1][i] == ws[i];
          }
        }
      }
    }
  }

  // ---------------------------------------------------------------- invariant of the phase

  predicate Outstanding(state: WorkerState) {
    state == Ready || state == Submitting || state == InFlight
  }

  /** The operations of a worker that are over. */
  function Over(w: Worker): int {
    w.issued - if Outstanding(w.state) then 1 else 0
  }

  predicate WorkerOk(w: Worker, go: bool) {
    && w.issued <= w.target
    && (Outstanding(w.state) || w.state == Complete ==> w.issued > 0 && w.rest.Sleeping? && go)
    && (w.state == Idle ==> w.rest.Gate? && (go ==> w.rest.woken))
    && (w.state == Starting ==> w.rest.Unborn?)
    && (w.state == Exited ==> w.rest.Gone? && w.issued == w.target)
    && (w.state == Complete ==> w.rest.woken)
    && (w.rest.Unborn? ==> w.state == Starting) && (w.rest.Gate? ==> w.state == Idle)
    && (w.rest.Gone? ==> w.state == Exited)
    && (w.rest.Sleeping? ==> Outstanding(w.state) || w.state == Complete)
  }

  /** The counters count, and every operation issued is over or outstanding. */
  predicate Balanced(p: Phase) {
    && p.ready == Count(p.workers, Ready)
    && p.submitting == Count(p.workers, Submitting)
    && p.inFlight == Count(p.workers, InFlight)
    && IssuedBy(p.workers) == p.completed + p.ready + p.submitting + p.inFlight
    && TargetsOf(p.workers) == p.total
    && p.completed == |p.finished|
    && p.size <= MAX_ECHO_DATA_BYTES
    && forall i :: 0 <= i < |p.workers| ==> WorkerOk(p.workers[i], p.go)
  }

  /** The finished operations are those that are over, each recorded once. */
  ghost predicate Recorded(p: Phase) {
    && (forall j :: j in p.finished <==> j.worker < |p.workers| && j.operation < Over(p.workers[j.worker]))
    && (forall a, b :: 0 <= a < b < |p.finished| ==> p.finished[a] != p.finished[b])
  }

  /** Sequences of requests in flight are pairwise different and not zero. */
  predicate DistinctInFlight(p: Phase) {
    && (forall i :: 0 <= i < |p.workers| && p.workers[i].state == InFlight ==> p.workers[i].sequence != 0)
    && (forall i, j :: 0 <= i < j < |p.workers| && p.workers[i].state == InFlight && p.workers[j].state == InFlight ==>
          p.workers[i].sequence != p.workers[j].sequence)
  }

  /** Each outstanding operation carries its own seed and request. */
  predicate Seeded(p: Phase) {
    p.size <= MAX_ECHO_DATA_BYTES &&
    forall i :: 0 <= i < |p.workers| && Outstanding(p.workers[i].state) && p.workers[i].issued > 0 ==>
      && p.workers[i].seed == SeedOf(p.seedBase, |p.workers|, Job(i, p.workers[i].issued - 1))
      && p.workers[i].request == Request(0, p.size, p.workers[i].seed)
  }

  ghost predicate Sound(p: Phase) {
    Balanced(p) && Recorded(p) && DistinctInFlight(p) && Seeded(p) && p.error == 0 && !p.stop
  }

  /** While something is in flight, the latency buffer has room for it. */
  lemma RoomForLatency(p: Phase)
    requires Balanced(p) && p.inFlight > 0
    ensures p.completed < p.total
  {
    IssuedWithinTargets(p.workers);
  }

  /** The sections keep the counters within 0..workers; nothing wraps. */
  lemma CountersInRange(p: Phase)
    requires Balanced(p)
    ensures 0 <= p.ready <= |p.workers| && 0 <= p.submitting <= |p.workers| && 0 <= p.inFlight <= |p.workers|
    ensures p.completed + p.ready + p.submitting + p.inFlight <= p.total
  {
    IssuedWithinTargets(p.workers);
  }

  /** Balance after one worker changes its state. */
  lemma Rebalance(p: Phase, i: nat, w: Worker, q: Phase)
    requires Balanced(p) && i < |p.workers| && q.workers == p.workers[i := w] && WorkerOk(w, q.go) && q.go == p.go
    requires w.target == p.workers[i].target && q.total == p.total && q.size == p.size
    requires q.ready - p.ready == Bit(w.state == Ready) - Bit(p.workers[i].state == Ready)
    requires q.submitting - p.submitting == Bit(w.state == Submitting) - Bit(p.workers[i].state == Submitting)
    requires q.inFlight - p.inFlight == Bit(w.state == InFlight) - Bit(p.workers[i].state == InFlight)
    requires w.issued - p.workers[i].issued
          == (q.completed + q.ready + q.submitting + q.inFlight) - (p.completed + p.ready + p.submitting + p.inFlight)
    requires q.completed - p.completed == |q.finished| - |p.finished|
    ensures Balanced(q)
  {
    hide WorkerOk, Count, IssuedBy, TargetsOf;
    CountUpdate(p.workers, i, w, Ready);
    CountUpdate(p.workers, i, w, Submitting);
    CountUpdate(p.workers, i, w, InFlight);
    SumsUpdate(p.workers, i, w);
  }

  function Bit(b: bool): int {
    if b then 1 else 0
  }

  /** One selected worker more. */
  lemma SelectKeeps(p: Phase, i: nat)
    requires Sound(p) && i < |p.workers| && p.workers[i].state == Ready
    ensures Sound(SelectOne(p, i)) && SameRest(p, SelectOne(p, i))
  {
    hide Balanced, SeedOf, Request;
    var q := SelectOne(p, i);
    WorkerIsOk(p, i);
    SizeIsOk(p);
    Rebalance(p, i, q.workers[i], q);
    assert Recorded(q);
  }

  /** What selection leaves alone. */
  predicate SameRest(p: Phase, q: Phase) {
    && |q.workers| == |p.workers| && q.wake == p.wake && q.inFlight == p.inFlight && q.completed == p.completed
    && q.go == p.go && q.size == p.size && q.total == p.total
  }

  lemma WorkerIsOk(p: Phase, i: nat)
    requires Balanced(p) && i < |p.workers|
    ensures WorkerOk(p.workers[i], p.go)
  {
  }

  lemma SizeIsOk(p: Phase)
    requires Balanced(p)
    ensures p.size <= MAX_ECHO_DATA_BYTES
  {
  }

  /** The driver did not take this request. */
  lemma ReturnKeeps(p: Phase, i: nat)
    requires Sound(p) && i < |p.workers| && p.workers[i].state == Submitting
    ensures CommitOne(p, i, false, 0).ok && Sound(CommitOne(p, i, false, 0).phase)
  {
    hide Balanced, SeedOf, Request;
    WorkerIsOk(p, i);
    SizeIsOk(p);
    var q := CommitOne(p, i, false, 0).phase;
    Rebalance(p, i, p.workers[i].(state := Ready), q);
    assert Recorded(q);
  }

  /** The driver took this request under a sequence that no request in flight has. */
  lemma TakeKeeps(p: Phase, i: nat, sequence: u32)
    requires Sound(p) && i < |p.workers| && p.workers[i].state == Submitting && sequence != 0
    requires FindFrom(p.workers, sequence, 0) == |p.workers|
    ensures CommitOne(p, i, true, sequence).ok && Sound(CommitOne(p, i, true, sequence).phase)
  {
    hide Balanced, SeedOf, Request;
    WorkerIsOk(p, i);
    SizeIsOk(p);
    var q := CommitOne(p, i, true, sequence).phase;
    Rebalance(p, i, p.workers[i].(state := InFlight, sequence := sequence), q);
    assert Recorded(q);
  }

  /** The first match is the only one. */
  lemma FindsTheOne(p: Phase, i: nat)
    requires DistinctInFlight(p) && i < |p.workers| && p.workers[i].state == InFlight
    ensures FindFrom(p.workers, p.workers[i].sequence, 0) == i
  {
  }

  /** The response of this worker's request is accepted. */
  lemma CompleteKeeps(p: Phase, i: nat, m: Slot)
    requires Sound(p) && i < |p.workers| && p.workers[i].state == InFlight && m.sequence == p.workers[i].sequence
    requires Balanced(p) && Accepts(m, p.size, p.workers[i].seed)
    ensures CompleteOne(p, m).ok && Sound(CompleteOne(p, m).phase)
    ensures CompleteOne(p, m).phase.workers == p.workers[i := Awake(p.workers[i].(state := Complete))]
    ensures CompleteOne(p, m).phase.seedBase == p.seedBase
  {
    hide Balanced, SeedOf, Request, Accepts, Recorded;
    WorkerIsOk(p, i);
    FindsTheOne(p, i);
    var w := Awake(p.workers[i].(state := Complete));
    var q := CompleteOne(p, m).phase;
    Rebalance(p, i, w, q);
    CompletionIsRecorded(p, i, w, q);
  }

  lemma CompletionIsRecorded(p: Phase, i: nat, w: Worker, q: Phase)
    requires Recorded(p) && i < |p.workers| && q.workers == p.workers[i := w]
    requires w.issued == p.workers[i].issued > 0 && Outstanding(p.workers[i].state) && !Outstanding(w.state)
    requires q.finished == p.finished + [Job(i, w.issued - 1)]
    ensures Recorded(q)
  {
    var job := Job(i, w.issued - 1);
    assert job !in p.finished;
    forall j ensures j in q.finished <==> j.worker < |q.workers| && j.operation < Over(q.workers[j.worker]) {
      assert j in q.finished <==> j in p.finished || j == job;
    }
  }

  /** A worker that has finished an operation, or none yet, goes on. */
  lemma IssueKeeps(p: Phase, i: nat, q: Phase)
    requires Sound(p) && i < |p.workers| && p.size <= MAX_ECHO_DATA_BYTES
    requires !Outstanding(p.workers[i].state) && p.workers[i].state != Exited
    requires p.go && p.workers[i].issued < p.workers[i].target
    requires var seed := SeedOf(p.seedBase, |p.workers|, Job(i, p.workers[i].issued));
             q == p.(workers := p.workers[i := p.workers[i].(state := Ready, rest := Sleeping(false),
                       issued := p.workers[i].issued + 1, seed := seed, request := Request(0, p.size, seed))],
                     ready := p.ready + 1, wake := p.wake + 1)
    ensures Sound(q)
  {
    hide Balanced, SeedOf, Request;
    WorkerIsOk(p, i);
    Rebalance(p, i, q.workers[i], q);
    assert Recorded(q);
  }

  /** A worker only changes where it rests, or leaves after its last operation. */
  lemma RestKeeps(p: Phase, i: nat, w: Worker, q: Phase)
    requires Sound(p) && i < |p.workers| && WorkerOk(w, p.go)
    requires !Outstanding(p.workers[i].state) || w.state == p.workers[i].state
    requires Outstanding(w.state) ==> w.state == p.workers[i].state
    requires w == p.workers[i].(state := w.state, rest := w.rest)
    requires q == p.(workers := p.workers[i := w])
    ensures Sound(q)
  {
    hide Balanced, SeedOf, Request, WorkerOk;
    SizeIsOk(p);
    Rebalance(p, i, w, q);
    assert Recorded(q);
  }

  /** Every section of every worker keeps the phase sound. */
  lemma WorkerKeeps(p: Phase, i: nat)
    requires Sound(p) && i < |p.workers| && p.size <= MAX_ECHO_DATA_BYTES
    ensures Sound(WorkerRuns(p, i))
  {
    hide Sound, SeedOf, Request;
    SoundIsBalanced(p);
    WorkerIsOk(p, i);
    hide Balanced;
    var w := p.workers[i];
    var q := WorkerRuns(p, i);
    var waits := w.rest.Unborn? || w.rest.Gate?;
    if w.rest.Gone? {
    } else if waits && !p.go {
      var v := w.(state := Idle, rest := Gate(false));
      RestKeeps(p, i, v, p.(workers := p.workers[i := v]));
      assert q == p.(workers := p.workers[i := v]);
    } else if w.rest.Sleeping? && w.state != Complete {
      var v := w.(rest := Sleeping(false));
      RestKeeps(p, i, v, p.(workers := p.workers[i := v]));
      assert q == p.(workers := p.workers[i := v]);
    } else if w.issued < w.target {
      var seed := SeedOf(p.seedBase, |p.workers|, Job(i, w.issued));
      var v := w.(state := Ready, rest := Sleeping(false), issued := w.issued + 1, seed := seed,
          request := Request(0, p.size, seed));
      assert q == p.(workers := p.workers[i := v], ready := p.ready + 1, wake := p.wake + 1);
      IssueKeeps(p, i, q);
    } else {
      var v := w.(state := Exited, rest := Gone);
      assert q == p.(workers := p.workers[i := v]);
      RestKeeps(p, i, v, q);
    }
  }

  lemma SoundIsBalanced(p: Phase)
    requires Sound(p)
    ensures Balanced(p) && !p.stop && DistinctInFlight(p) && Recorded(p) && p.error == 0
  {
  }

  /** Opening the gate wakes every worker that waits at it. */
  lemma GateKeeps(p: Phase)
    requires Sound(p)
    ensures Sound(OpenGate(p))
  {
    hide SeedOf, Request, Balanced, Recorded;
    var q := OpenGate(p);
    GateBalances(p);
    SizeIsOk(p);
    GateRecords(p);
  }

  lemma GateBalances(p: Phase)
    requires Balanced(p)
    ensures Balanced(OpenGate(p))
  {
    hide Count, IssuedBy, TargetsOf;
    var q := OpenGate(p);
    SameCounts(p.workers, q.workers, Ready);
    SameCounts(p.workers, q.workers, Submitting);
    SameCounts(p.workers, q.workers, InFlight);
  }

  lemma GateRecords(p: Phase)
    requires Recorded(p)
    ensures Recorded(OpenGate(p))
  {
    assert forall i :: 0 <= i < |p.workers| ==> Over(OpenGate(p).workers[i]) == Over(p.workers[i]);
  }

  // ---------------------------------------------------------------- whole sections

  /** The submitting workers are the selected ones, each selected once. */
  predicate Selected(p: Phase, selected: seq<nat>) {
    && Indices(p, selected)
    && (forall a, b :: 0 <= a < b < |selected| ==> selected[a] != selected[b])
    && (forall i :: 0 <= i < |p.workers| ==> (p.workers[i].state == Submitting <==> i in selected))
  }

  /** Selection picks every ready worker, and no other. */
  lemma {:induction false} SelectionKeeps(p: Phase, k: nat)
    requires Sound(p) && k <= |p.workers| && Selected(p, [])
    ensures var r := SelectUpTo(p, k);
            && Sound(r.phase) && Selected(r.phase, r.indices) && SameRest(p, r.phase)
            && (forall i :: i in r.indices <==> 0 <= i < k && p.workers[i].state == Ready)
            && (forall i :: 0 <= i < |p.workers| ==>
                  r.phase.workers[i] == if i in r.indices then p.workers[i].(state := Submitting) else p.workers[i])
  {
    hide Sound, SelectOne;
    if k > 0 {
      SelectionKeeps(p, k - 1);
      var s := SelectUpTo(p, k - 1);
      if s.phase.workers[k - 1].state == Ready {
        SelectKeeps(s.phase, k - 1);
        SelectsOneMore(s.phase, s.indices, k - 1);
      }
    }
  }

  lemma SelectsOneMore(p: Phase, indices: seq<nat>, i: nat)
    requires Selected(p, indices) && i < |p.workers| && p.workers[i].state == Ready
    ensures Selected(SelectOne(p, i), indices + [i])
  {
    assert i !in indices;
  }

  /** What selection over the first k workers does to any phase: exactly the
      ready ones join, in the order of their numbers, and one counter is drawn
      on for each that the other one gains. */
  ghost predicate SelectedUpTo(p: Phase, k: nat, r: Selection)
    requires k <= |p.workers|
  {
    && |r.phase.workers| == |p.workers|
    && (forall i :: i in r.indices <==> 0 <= i < k && p.workers[i].state == Ready)
    && (forall a, b :: 0 <= a < b < |r.indices| ==> r.indices[a] < r.indices[b])
    && (forall i :: 0 <= i < |p.workers| ==>
          r.phase.workers[i] == if i in r.indices then p.workers[i].(state := Submitting) else p.workers[i])
    && r.phase == p.(workers := r.phase.workers, ready := p.ready - |r.indices|,
                     submitting := p.submitting + |r.indices|)
  }

  lemma SelectsNext(p: Phase, k: nat, s: Selection)
    requires k < |p.workers| && SelectedUpTo(p, k, s) && p.workers[k].state == Ready
    ensures SelectedUpTo(p, k + 1, Selection(SelectOne(s.phase, k), s.indices + [k]))
  {
    var joined, q := s.indices + [k], SelectOne(s.phase, k);
    assert forall i :: i in joined <==> i in s.indices || i == k;
    forall a, b | 0 <= a < b < |joined| ensures joined[a] < joined[b] {
      assert joined[a] in s.indices;
    }
    assert s.phase.workers[k] == p.workers[k];
    assert q == p.(workers := q.workers, ready := p.ready - |joined|, submitting := p.submitting + |joined|);
  }

  lemma SelectsNot(p: Phase, k: nat, s: Selection)
    requires k < |p.workers| && SelectedUpTo(p, k, s) && p.workers[k].state != Ready
    ensures SelectedUpTo(p, k + 1, s)
  {
  }

  lemma {:induction false} SelectsExactly(p: Phase, k: nat)
    requires k <= |p.workers|
    ensures SelectedUpTo(p, k, SelectUpTo(p, k))
  {
    if k == 0 {
      assert SelectUpTo(p, k) == Selection(p, []);
    } else {
      hide SelectOne, SelectedUpTo;
      SelectsExactly(p, k - 1);
      var s := SelectUpTo(p, k - 1);
      Untouched(p, k - 1, s.phase.workers[k - 1]);
      if p.workers[k - 1].state == Ready {
        SelectsNext(p, k - 1, s);
      } else {
        SelectsNot(p, k - 1, s);
      }
    }
  }

  /** The first place of w in the selection, or its length. */
  function At(selected: seq<nat>, w: nat): (i: nat)
    ensures i <= |selected|
    ensures i < |selected| ==> selected[i] == w
    ensures i == |selected| <==> w !in selected
  {
    if selected == [] then 0
    else if selected[0] == w then 0
    else At(selected[1..], w) + 1
  }

  /** The phase as the first k answers of the driver leave it. */
  predicate CommittedUpTo(p: Phase, sel: seq<nat>, seqs: seq<u32>, k: nat, q: Phase)
    requires |seqs| <= |sel|
  {
    var taken := if k < |seqs| then k else |seqs|;
    && |q.workers| == |p.workers|
    && q == p.(workers := q.workers, submitting := p.submitting - k, inFlight := p.inFlight + taken,
               ready := p.ready + (k - taken))
    && (forall w :: 0 <= w < |p.workers| ==>
          var i := At(sel, w);
          q.workers[w] ==
            if i >= k || i >= |sel| then p.workers[w]
            else if i < |seqs| then p.workers[w].(state := InFlight, sequence := seqs[i])
            else p.workers[w].(state := Ready))
  }

  predicate InUse(p: Phase, sequence: u32) {
    exists v :: 0 <= v < |p.workers| && p.workers[v].state == InFlight && p.workers[v].sequence == sequence
  }

  /** The first k sequences of a batch are new: not zero, not those of requests
      in flight, and pairwise different. */
  predicate NewUpTo(p: Phase, seqs: seq<u32>, k: nat) {
    && (forall i :: 0 <= i < k && i < |seqs| ==> seqs[i] != 0 && !InUse(p, seqs[i]))
    && (forall i, j :: 0 <= i < j < k && j < |seqs| ==> seqs[i] != seqs[j])
  }

  lemma AtPlace(p: Phase, sel: seq<nat>, i: nat)
    requires Selected(p, sel) && i < |sel|
    ensures At(sel, sel[i]) == i
  {
  }

  lemma AtIsPlace(p: Phase, sel: seq<nat>, i: nat)
    requires Selected(p, sel) && i < |sel|
    ensures sel[i] < |p.workers|
    ensures forall w :: 0 <= w < |p.workers| && At(sel, w) == i ==> w == sel[i]
  {
  }

  lemma CommitsOne(p: Phase, sel: seq<nat>, seqs: seq<u32>, k: nat, r: Phase)
    requires Selected(p, sel) && 0 < k <= |sel| && |seqs| <= |sel| && CommittedUpTo(p, sel, seqs, k - 1, r)
    requires CommitOne(r, sel[k - 1], k - 1 < |seqs|, if k - 1 < |seqs| then seqs[k - 1] else 0).ok
    ensures CommittedUpTo(p, sel, seqs, k,
              CommitOne(r, sel[k - 1], k - 1 < |seqs|, if k - 1 < |seqs| then seqs[k - 1] else 0).phase)
  {
    hide FindFrom, Fail, Selected;
    AtPlace(p, sel, k - 1);
    AtIsPlace(p, sel, k - 1);
  }

  /** The sequences in flight after k answers are those before and the first k
      of the batch. */
  lemma InUseAfter(p: Phase, sel: seq<nat>, seqs: seq<u32>, k: nat, r: Phase, sequence: u32)
    requires Selected(p, sel) && k <= |seqs| <= |sel| && CommittedUpTo(p, sel, seqs, k, r)
    ensures InUse(r, sequence) <==> InUse(p, sequence) || sequence in seqs[..k]
    ensures InUse(r, sequence) <==> FindFrom(r.workers, sequence, 0) < |r.workers|
  {
    if InUse(r, sequence) {
      var v :| 0 <= v < |r.workers| && r.workers[v].state == InFlight && r.workers[v].sequence == sequence;
      if At(sel, v) < k {
        assert seqs[..k][At(sel, v)] == sequence;
      } else {
        assert r.workers[v] == p.workers[v];
      }
    }
    if InUse(p, sequence) {
      var v :| 0 <= v < |p.workers| && p.workers[v].state == InFlight && p.workers[v].sequence == sequence;
      assert v !in sel;
      assert r.workers[v] == p.workers[v];
    }
    if i :| 0 <= i < k && seqs[..k][i] == sequence {
      AtPlace(p, sel, i);
      assert r.workers[sel[i]].state == InFlight && r.workers[sel[i]].sequence == sequence;
    }
  }

  /** The driver's answers are committed, or refused, exactly as they deserve. */
  lemma {:induction false} CommitsExactly(p: Phase, sel: seq<nat>, seqs: seq<u32>, k: nat)
    requires Selected(p, sel) && |seqs| <= |sel| && k <= |sel|
    ensures var r := CommitUpTo(p, sel, seqs, k);
            && (r.ok <==> NewUpTo(p, seqs, k))
            && (r.ok ==> CommittedUpTo(p, sel, seqs, k, r.phase) && (Sound(p) ==> Sound(r.phase)))
            && (!r.ok ==> r.phase.stop && r.phase.error == if p.error == 0 then EPROTO else p.error)
  {
    assert Indices(p, sel);
    hide Sound, CommitOne, Selected;
    if k > 0 {
      CommitsExactly(p, sel, seqs, k - 1);
      var r := CommitUpTo(p, sel, seqs, k - 1);
      if r.ok {
        CommitStep(p, sel, seqs, k, r.phase);
      }
    }
  }

  lemma OneMoreIsNew(p: Phase, seqs: seq<u32>, k: nat)
    requires k < |seqs| && NewUpTo(p, seqs, k)
    ensures NewUpTo(p, seqs, k + 1) <==> seqs[k] != 0 && !InUse(p, seqs[k]) && seqs[k] !in seqs[..k]
  {
    hide InUse;
    if seqs[k] in seqs[..k] {
      var i :| 0 <= i < k && seqs[..k][i] == seqs[k];
      assert seqs[i] == seqs[k];
    }
  }

  lemma TakenStep(p: Phase, sel: seq<nat>, seqs: seq<u32>, k: nat, r: Phase)
    requires Selected(p, sel) && k < |seqs| <= |sel| && CommittedUpTo(p, sel, seqs, k, r) && NewUpTo(p, seqs, k)
    ensures var c := CommitOne(r, sel[k], true, seqs[k]);
            && (c.ok <==> NewUpTo(p, seqs, k + 1))
            && (c.ok && Sound(r) ==> Sound(c.phase))
            && (!c.ok ==> c.phase.stop && c.phase.error == if p.error == 0 then EPROTO else p.error)
  {
    AtPlace(p, sel, k);
    assert sel[k] in sel && r.workers[sel[k]].state == Submitting && r.error == p.error;
    InUseAfter(p, sel, seqs, k, r, seqs[k]);
    OneMoreIsNew(p, seqs, k);
    hide Sound, Selected, InUse, CommittedUpTo, FindFrom, NewUpTo;
    if Sound(r) && seqs[k] != 0 && !InUse(r, seqs[k]) {
      TakeKeeps(r, sel[k], seqs[k]);
    }
  }

  lemma ReturnedStep(p: Phase, sel: seq<nat>, seqs: seq<u32>, k: nat, r: Phase)
    requires Selected(p, sel) && |seqs| <= k < |sel| && CommittedUpTo(p, sel, seqs, k, r) && NewUpTo(p, seqs, k)
    ensures var c := CommitOne(r, sel[k], false, 0);
            c.ok && NewUpTo(p, seqs, k + 1) && (Sound(r) ==> Sound(c.phase))
  {
    AtPlace(p, sel, k);
    assert sel[k] in sel && r.workers[sel[k]].state == Submitting;
    hide Sound, Selected, InUse, CommittedUpTo;
    if Sound(r) {
      ReturnKeeps(r, sel[k]);
    }
  }

  lemma CommitStep(p: Phase, sel: seq<nat>, seqs: seq<u32>, k: nat, r: Phase)
    requires Selected(p, sel) && 0 < k <= |sel| && |seqs| <= |sel| && CommittedUpTo(p, sel, seqs, k - 1, r)
    requires NewUpTo(p, seqs, k - 1)
    ensures var c := CommitOne(r, sel[k - 1], k - 1 < |seqs|, if k - 1 < |seqs| then seqs[k - 1] else 0);
            && (c.ok <==> NewUpTo(p, seqs, k))
            && (c.ok ==> CommittedUpTo(p, sel, seqs, k, c.phase) && (Sound(r) ==> Sound(c.phase)))
            && (!c.ok ==> c.phase.stop && c.phase.error == if p.error == 0 then EPROTO else p.error)
  {
    assert sel[k - 1] < |r.workers|;
    hide Sound, Selected, CommitOne, CommittedUpTo, NewUpTo;
    if k - 1 < |seqs| {
      TakenStep(p, sel, seqs, k - 1, r);
    } else {
      ReturnedStep(p, sel, seqs, k - 1, r);
    }
    if CommitOne(r, sel[k - 1], k - 1 < |seqs|, if k - 1 < |seqs| then seqs[k - 1] else 0).ok {
      CommitsOne(p, sel, seqs, k, r);
    }
  }

  /** A worker that is not waiting for the gate or for a response. */
  predicate MayGoOn(p: Phase, w: Worker) {
    if w.rest.Sleeping? then w.state == Complete else p.go
  }

  /** One pass of a worker through the lock, seen from outside. It issues its
      next operation, the one whose number comes next in its share, exactly when
      the last one is over and neither the target nor a stop is reached; it
      tells the dispatcher if and only if it does; it leaves exactly when there
      is nothing more for it to do; and it never touches an operation that is
      outstanding, nor another worker. */
  predicate Passes(p: Phase, i: nat, q: Phase)
    requires i < |p.workers| && p.size <= MAX_ECHO_DATA_BYTES
  {
    && |q.workers| == |p.workers|
    && q == p.(workers := q.workers, ready := q.ready, wake := q.wake)
    && (forall j :: 0 <= j < |p.workers| && j != i ==> q.workers[j] == p.workers[j])
    && var w, v := p.workers[i], q.workers[i];
       var issues := !p.stop && w.issued < w.target && !w.rest.Gone? && MayGoOn(p, w);
    && v.issued == w.issued + Bit(issues) && q.ready == p.ready + Bit(issues) && q.wake == p.wake + Bit(issues)
    && v.target == w.target && v.sequence == w.sequence
    && (issues ==>
         && v.state == Ready && v.rest == Sleeping(false)
         && v.seed == SeedOf(p.seedBase, |p.workers|, Job(i, w.issued)) && v.request == Request(0, p.size, v.seed))
    && (!issues ==> v.seed == w.seed && v.request == w.request)
    && (v.rest.Gone? <==> w.rest.Gone? || p.stop || (MayGoOn(p, w) && !issues))
    && (w.rest.Sleeping? && Outstanding(w.state) && !p.stop ==> v == w.(rest := Sleeping(false)))
  }

  lemma WorkerPasses(p: Phase, i: nat)
    requires i < |p.workers| && p.size <= MAX_ECHO_DATA_BYTES
    ensures Passes(p, i, WorkerRuns(p, i))
  {
    hide Request, SeedOf;
    var w := p.workers[i];
    if !p.stop && w.issued < w.target && !w.rest.Gone? && MayGoOn(p, w) {
      assert WorkerRuns(p, i).workers[i].issued == w.issued + 1;
    } else {
      assert WorkerRuns(p, i).workers[i] == w.(state := WorkerRuns(p, i).workers[i].state,
                                               rest := WorkerRuns(p, i).workers[i].rest);
    }
  }

  // ---------------------------------------------------------------- implementation

  /** The phase as the program keeps it; its methods run under the phase lock. */
  class LockedPhase {
    const workers: array<Worker>
    const size: nat
    const seedBase: u32
    const total: nat
    var completed: int
    var ready: int
    var submitting: int
    var inFlight: int
    var go: bool
    var stop: bool
    var error: int
    var wake: nat
    ghost var finished: seq<Job>

    constructor (workers: array<Worker>, size: nat, seedBase: u32, total: nat)
      ensures this.workers == workers && this.size == size && this.seedBase == seedBase && this.total == total
      ensures View() == Phase(workers[..], size, seedBase, total, 0, 0, 0, 0, false, false, 0, 0, [])
    {
      this.workers, this.size, this.seedBase, this.total := workers, size, seedBase, total;
      completed, ready, submitting, inFlight := 0, 0, 0, 0;
      go, stop, error, wake, finished := false, false, 0, 0, [];
    }

    ghost function View(): Phase
      reads this, workers
    {
      Phase(workers[..], size, seedBase, total, completed, ready, submitting, inFlight, go, stop, error, wake, finished)
    }

    method FindInFlightWorker(sequence: u32) returns (i: nat)
      ensures i == FindFrom(workers[..], sequence, 0)
    {
      i := 0;
      while i < workers.Length
        invariant i <= workers.Length
        invariant FindFrom(workers[..], sequence, 0) == FindFrom(workers[..], sequence, i)
      {
        if workers[i].state == InFlight && workers[i].sequence == sequence {
          return;
        }
        i := i + 1;
      }
    }

    method FailPhaseLocked(e: int)
      modifies this`error, this`stop, this`wake, workers
      ensures View() == Fail(old(View()), e)
    {
      if error == 0 {
        error := e;
      }
      stop := true;
      ghost var was := workers[..];
      var i := 0;
      while i < workers.Length
        modifies workers
        invariant i <= workers.Length
        invariant forall j :: 0 <= j < i ==> workers[j] == Awake(was[j])
        invariant forall j :: i <= j < workers.Length ==> workers[j] == was[j]
      {
        workers[i] := Awake(workers[i]);
        i := i + 1;
      }
      wake := wake + 1;
      assert workers[..] == Fail(old(View()), e).workers;
    }

    /** One ready worker joins the batch. */
    method SelectWorker(i: nat, messages: array<Slot>, selected: array<nat>, count: nat)
      requires i < workers.Length && count < messages.Length == selected.Length
      requires workers as object != messages as object && workers as object != selected as object
      modifies this`ready, this`submitting, workers, messages, selected
      ensures View() == SelectOne(old(View()), i)
      ensures selected[..count + 1] == old(selected[..count]) + [i]
      ensures messages[..count + 1] == old(messages[..count]) + [old(workers[i]).request]
    {
      messages[count] := workers[i].request;
      selected[count] := i;
      workers[i] := workers[i].(state := Submitting);
      ready := ready - 1;
      submitting := submitting + 1;
    }

    /** The first section of submit_ready_workers: the batch holds the requests
        of exactly the selected workers, in the order of their numbers. */
    method SelectReady(messages: array<Slot>, selected: array<nat>) returns (count: nat)
      requires messages.Length == selected.Length == workers.Length
      requires workers as object != messages as object && workers as object != selected as object
      modifies this`ready, this`submitting, workers, messages, selected
      ensures count <= workers.Length
      ensures var r := SelectUpTo(old(View()), workers.Length);
              View() == r.phase && selected[..count] == r.indices
      ensures SelectedUpTo(old(View()), workers.Length, Selection(View(), selected[..count]))
      ensures Indices(old(View()), selected[..count])
      ensures messages[..count] == RequestsOf(old(View()), selected[..count])
      ensures old(Sound(View()) && Selected(View(), [])) ==> Sound(View()) && Selected(View(), selected[..count])
    {
      hide FindFrom, Balanced, Request, SelectOne;
      count := 0;
      var i := 0;
      ghost var p := View();
      while i < workers.Length
        modifies this`ready, this`submitting, workers, messages, selected
        invariant count <= i <= workers.Length
        invariant View() == SelectUpTo(p, i).phase && selected[..count] == SelectUpTo(p, i).indices
        invariant Indices(p, selected[..count]) && messages[..count] == RequestsOf(p, selected[..count])
      {
        var w := workers[i];
        Untouched(p, i, w);
        if w.state == Ready {
          ghost var before := selected[..count];
          SelectWorker(i, messages, selected, count);
          assert RequestsOf(p, before + [i]) == RequestsOf(p, before) + [w.request];
          count := count + 1;
        }
        i := i + 1;
      }
      SelectsExactly(p, i);
      if Sound(p) && Selected(p, []) {
        SelectionKeeps(p, i);
      }
    }

    /** The driver's answer for one selected worker. */
    method CommitWorker(w: nat, taken: bool, sequence: u32) returns (ok: bool)
      requires w < workers.Length
      modifies this`ready, this`submitting, this`inFlight, this`error, this`stop, this`wake, workers
      ensures Result(ok, View()) == CommitOne(old(View()), w, taken, sequence)
    {
      hide FindFrom, Fail, Balanced, Request;
      if taken {
        var found := FindInFlightWorker(sequence);
        if sequence == 0 || found < workers.Length {
          FailPhaseLocked(EPROTO);
          return false;
        }
        workers[w] := workers[w].(state := InFlight, sequence := sequence);
        submitting := submitting - 1;
        inFlight := inFlight + 1;
      } else {
        workers[w] := workers[w].(state := Ready);
        submitting := submitting - 1;
        ready := ready + 1;
      }
      ok := true;
    }

    /** The second section of submit_ready_workers, after the driver has taken
        the first `submitted` requests of the batch. */
    method CommitSubmitted(messages: array<Slot>, selected: array<nat>, count: nat,
        submitted: nat) returns (status: int)
      requires submitted <= count <= selected.Length && count <= messages.Length
      requires workers as object != messages as object && workers as object != selected as object
      requires Indices(View(), selected[..count])
      modifies this`ready, this`submitting, this`inFlight, this`error, this`stop, this`wake, workers
      ensures var r := CommitUpTo(old(View()), selected[..count], Sequences(messages[..submitted]), count);
              View() == r.phase && status == if r.ok then 0 else EPROTO
      ensures old(Selected(View(), selected[..count])) ==>
                var sequences := Sequences(messages[..submitted]);
                && (status == 0 <==> NewUpTo(old(View()), sequences, submitted))
                && (status == 0 ==>
                      && CommittedUpTo(old(View()), old(selected[..count]), sequences, count, View())
                      && (old(Sound(View())) ==> Sound(View())))
                && (status != 0 ==> stop && error == if old(error) == 0 then EPROTO else old(error))
    {
      hide FindFrom, Fail, Balanced, CommitOne;
      ghost var p := View();
      ghost var chosen, sequences := selected[..count], Sequences(messages[..submitted]);
      var i := 0;
      while i < count
        invariant i <= count
        invariant selected[..count] == chosen && Sequences(messages[..submitted]) == sequences
        invariant CommitUpTo(p, chosen, sequences, i) == Result(true, View())
      {
        assert chosen[i] == selected[i];
        assert i < submitted ==> sequences[i] == messages[i].sequence;
        var ok := CommitWorker(selected[i], i < submitted, if i < submitted then messages[i].sequence else 0);
        i := i + 1;
        if !ok {
          StaysFailed(p, chosen, sequences, i, count);
          if Selected(p, chosen) {
            CommitsExactly(p, chosen, sequences, count);
          }
          return EPROTO;
        }
      }
      status := 0;
      if Selected(p, chosen) {
        CommitsExactly(p, chosen, sequences, count);
      }
    }

    /** One response of a reaped batch; the latency goes into the next place of
        the buffer, which has one for every operation of the phase. */
    method CompleteResponse(m: Slot, latency: array<nat>, elapsed: seq<nat>) returns (ok: bool)
      requires Sound(View()) && size <= MAX_ECHO_DATA_BYTES && |elapsed| == workers.Length
      requires latency.Length == total && latency as object != workers as object
      modifies this`inFlight, this`completed, this`error, this`stop, this`wake, this`finished, workers, latency
      ensures Result(ok, View()) == CompleteOne(old(View()), m)
      ensures ok ==> Sound(View()) && completed == old(completed) + 1
    {
      hide FindFrom, Fail, Sound, Accepts, Balanced, Request;
      SoundIsBalanced(View());
      ok := false;
      var w := FindInFlightWorker(m.sequence);
      if w < workers.Length {
        ok := ValidateResponse(m, size, workers[w].seed);
      }
      if !ok {
        FailPhaseLocked(EPROTO);
        return;
      }
      CountIsPositive(workers[..], w, InFlight);
      BalanceCounts(View());
      RoomForLatency(View());
      CompleteKeeps(View(), w, m);
      latency[completed] := elapsed[w];
      finished := finished + [Job(w, if workers[w].issued > 0 then workers[w].issued - 1 else 0)];
      workers[w] := Awake(workers[w].(state := Complete));
      inFlight := inFlight - 1;
      completed := completed + 1;
    }

    /** The section of reap_ready_responses that completes the reaped responses. */
    method CompleteReaped(messages: array<Slot>, reaped: nat, latency: array<nat>,
        elapsed: seq<nat>) returns (status: int)
      requires Sound(View()) && size <= MAX_ECHO_DATA_BYTES && reaped <= messages.Length && |elapsed| == workers.Length
      requires latency.Length == total && latency as object != workers as object
      requires messages as object != workers as object && messages as object != latency as object
      modifies this`inFlight, this`completed, this`error, this`stop, this`wake, this`finished, workers, latency
      ensures var r := CompleteUpTo(old(View()), messages[..reaped], reaped);
              View() == r.phase && status == if r.ok then 0 else EPROTO
      ensures status == 0 ==> Sound(View()) && completed == old(completed) + reaped
    {
      hide FindFrom, Fail, Sound, Accepts, CompleteOne;
      ghost var p := View();
      ghost var batch := messages[..reaped];
      var i := 0;
      while i < reaped
        invariant i <= reaped && messages[..reaped] == batch
        invariant Sound(View()) && completed == old(completed) + i
        invariant CompleteUpTo(p, batch, i) == Result(true, View())
      {
        assert batch[i] == messages[i];
        var ok := CompleteResponse(messages[i], latency, elapsed);
        i := i + 1;
        if !ok {
          StaysIncomplete(p, batch, i, reaped);
          return EPROTO;
        }
      }
      status := 0;
    }

    /** One pass of worker_main through its lock, from where it rested. */
    method RunWorker(i: nat)
      requires i < workers.Length && size <= MAX_ECHO_DATA_BYTES
      modifies this`ready, this`wake, workers
      ensures View() == WorkerRuns(old(View()), i)
      ensures Passes(old(View()), i, View())
      ensures old(Sound(View())) ==> Sound(View())
    {
      hide Request, SeedOf, Sound, Passes;
      ghost var p := View();
      WorkerPasses(p, i);
      if Sound(p) {
        WorkerKeeps(p, i);
      }
      var w := workers[i];
      if w.rest.Gone? {
        return;
      }
      if (w.rest.Unborn? || w.rest.Gate?) && !go && !stop {
        workers[i] := w.(state := if w.rest.Unborn? then Idle else w.state, rest := Gate(false));
        return;
      }
      if w.rest.Sleeping? && w.state != Complete && !stop {
        workers[i] := w.(rest := Sleeping(false));
        return;
      }
      if w.issued < w.target && !stop {
        var seed := SeedOf(seedBase, workers.Length, Job(i, w.issued));
        var request := MakeRequest(0, size, seed);
        workers[i] := w.(state := Ready, rest := Sleeping(false), issued := w.issued + 1, seed := seed,
            request := request);
        ready := ready + 1;
        wake := wake + 1;
      } else {
        workers[i] := w.(state := Exited, rest := Gone);
      }
      assert View().workers == WorkerRuns(p, i).workers;
    }
  }

  function Sequences(ms: seq<Slot>): (r: seq<u32>)
    ensures |r| == |ms|
  {
    seq(|ms|, i requires 0 <= i < |ms| => ms[i].sequence)
  }

  lemma {:induction false} StaysFailed(p: Phase, selected: seq<nat>, sequences: seq<u32>, i: nat, k: nat)
    requires Indices(p, selected) && |sequences| <= |selected| && i <= k <= |selected|
    requires !CommitUpTo(p, selected, sequences, i).ok
    ensures CommitUpTo(p, selected, sequences, k) == CommitUpTo(p, selected, sequences, i)
  {
    if i < k {
      StaysFailed(p, selected, sequences, i, k - 1);
    }
  }

  lemma {:induction false} StaysIncomplete(p: Phase, messages: seq<Slot>, i: nat, k: nat)
    requires p.size <= MAX_ECHO_DATA_BYTES && i <= k <= |messages|
    requires !CompleteUpTo(p, messages, i).ok
    ensures CompleteUpTo(p, messages, k) == CompleteUpTo(p, messages, i)
  {
    if i < k {
      StaysIncomplete(p, messages, i, k - 1);
    }
  }

  /** Selection has not reached worker k yet. */
  lemma Untouched(p: Phase, k: nat, w: Worker)
    requires k < |p.workers| && w == SelectUpTo(p, k).phase.workers[k]
    ensures w == p.workers[k]
  {
    assert SelectUpTo(p, k).phase.workers[k..][0] == p.workers[k..][0];
  }

  lemma BalanceCounts(p: Phase)
    requires Balanced(p)
    ensures p.inFlight == Count(p.workers, InFlight) && p.completed >= 0
  {
  }
}
