/** The threaded benchmark's claims about itself, for every interleaving: its
    counters, its wakeups, its unreachable errors, and that every operation is
    completed exactly once. */
module ThreadBenchProof {
  import opened Wrap
  import opened Shm
  import opened App
  import opened Shares
  import opened Workload
  import opened Flights
  import opened ThreadPhase
  import opened ThreadBench

  // ---------------------------------------------------------------- who is out

  /** The same requests are out, under the same sequences and for the same seeds. */
  predicate SameOut(p: Phase, sel: seq<nat>, seqs: seq<u32>, q: Phase, sel': seq<nat>, seqs': seq<u32>) {
    && q.size == p.size && |q.workers| == |p.workers|
    && forall w :: 0 <= w < |p.workers| ==>
         && SequenceOf(q, sel', seqs', w) == SequenceOf(p, sel, seqs, w)
         && (SequenceOf(p, sel, seqs, w) != 0 ==> q.workers[w].seed == p.workers[w].seed)
  }

  lemma TiedTransfer(p: Phase, sel: seq<nat>, seqs: seq<u32>, q: Phase, sel': seq<nat>, seqs': seq<u32>,
      flights: seq<Flight>)
    requires Tied(p, sel, seqs, flights) && SameOut(p, sel, seqs, q, sel', seqs')
    ensures Tied(q, sel', seqs', flights)
  {
    hide SequenceOf, Request, Accepts, HasFlight;
    forall k | 0 <= k < |flights| && flights[k].place != Consumed
      ensures Live(q, sel', seqs', flights[k])
    {
      assert Live(p, sel, seqs, flights[k]);
    }
  }

  /** What a worker's section can change. */
  predicate WorkerMoved(p: Phase, i: nat, q: Phase) {
    && i < |p.workers| && |q.workers| == |p.workers|
    && (forall w :: 0 <= w < |p.workers| && w != i ==> q.workers[w] == p.workers[w])
    && (Outstanding(p.workers[i].state) ==> q.workers[i] == p.workers[i].(rest := q.workers[i].rest))
    && (!Outstanding(p.workers[i].state) ==> q.workers[i].state != Submitting && q.workers[i].state != InFlight)
    && q.workers[i].target == p.workers[i].target
    && q.inFlight == p.inFlight && q.completed == p.completed && q.total == p.total && q.size == p.size
    && q.go == p.go && q.stop == p.stop && q.error == p.error
    && p.ready <= q.ready && p.wake <= q.wake && (p.ready < q.ready ==> q.wake > 0)
  }

  lemma WorkerMoves(p: Phase, i: nat)
    requires Sound(p) && i < |p.workers| && p.size <= MAX_ECHO_DATA_BYTES
    ensures WorkerMoved(p, i, WorkerRuns(p, i))
  {
    hide Recorded, Seeded, Request, SeedOf, Count, IssuedBy, TargetsOf;
    assert WorkerOk(p.workers[i], p.go);
  }

  lemma WorkerKeepsOut(p: Phase, i: nat, q: Phase, sel: seq<nat>, seqs: seq<u32>)
    requires WorkerMoved(p, i, q) && Selected(p, sel) && |seqs| <= |sel|
    ensures SameOut(p, sel, seqs, q, sel, seqs) && Selected(q, sel)
  {
  }

  lemma WorkerStepKeeps(s: State, i: nat)
    requires Good(s) && i < |s.p.workers|
    ensures Good(s.(p := WorkerRuns(s.p, i)))
  {
    hide Sound, Tied, SameOut, Selected, HeldOk, WorkerTarget, WorkerRuns;
    var q := WorkerRuns(s.p, i);
    if s.p.stop {
      StopStays(s.p, i);
    } else {
      WorkerKeeps(s.p, i);
      WorkerMoves(s.p, i);
      WorkerKeepsOut(s.p, i, q, Picked(s.pc), Pledged(s.pc));
      TiedTransfer(s.p, Picked(s.pc), Pledged(s.pc), q, Picked(s.pc), Pledged(s.pc), s.flights);
    }
  }

  lemma StopStays(p: Phase, i: nat)
    requires i < |p.workers| && p.size <= MAX_ECHO_DATA_BYTES && p.stop
    ensures WorkerRuns(p, i).stop && WorkerRuns(p, i).size == p.size
  {
    hide Request, SeedOf;
  }

  // ---------------------------------------------------------------- the channel

  /** The firmware's answer is accepted for the seed of the request. */
  lemma AnswerKeeps(s: State, k: nat)
    requires Good(s)
    ensures Good(OnAnswer(s, k))
  {
    hide Sound, Request, Accepts, Respond, SequenceOf, Selected;
    if !s.p.stop && k < |s.flights| && s.flights[k].place == Sent && Sendable(s.flights[k].slot) {
      var sel, seqs := Picked(s.pc), Pledged(s.pc);
      var f := s.flights[k];
      assert Live(s.p, sel, seqs, f);
      ReplyIsAccepted(f.slot.sequence, s.p.size, s.p.workers[f.owner].seed, s.gpio);
      var r := Respond(f.slot, s.gpio);
      var g := Flight(f.owner, r.0, Replied);
      ReplaceKeeps(s.p, sel, seqs, s.flights, k, g);
      assert forall j :: 0 <= j < |s.flights| ==> (s.flights[k := g][j].place == Held <==> s.flights[j].place == Held);
    }
  }

  lemma ReplaceKeeps(p: Phase, sel: seq<nat>, seqs: seq<u32>, flights: seq<Flight>, k: nat, g: Flight)
    requires Tied(p, sel, seqs, flights) && k < |flights| && flights[k].place != Consumed
    requires g.place != Consumed && g.owner == flights[k].owner && Live(p, sel, seqs, g)
    ensures Tied(p, sel, seqs, flights[k := g])
  {
    hide Live, SequenceOf;
    var hs := flights[k := g];
    forall w | 0 <= w < |p.workers| && HasFlight(flights, w) ensures HasFlight(hs, w) {
      var j :| 0 <= j < |flights| && flights[j].owner == w && flights[j].place != Consumed;
      assert hs[j].owner == w && hs[j].place != Consumed;
    }
  }

  lemma HeldIsLive(p: Phase, flights: seq<Flight>, held: seq<nat>, k: nat)
    requires p.size <= MAX_ECHO_DATA_BYTES && AllLive(p, [], [], flights) && Reapable(flights, held)
    requires k < |flights| && Hold(flights, held)[k].place != Consumed
    ensures flights[k].place != Consumed && flights[k].owner == Hold(flights, held)[k].owner
    ensures Live(p, [], [], Hold(flights, held)[k])
  {
    hide SequenceOf, Request, Accepts;
    assert k in held ==> flights[k].place == Replied;
    assert Live(p, [], [], flights[k]);
  }

  /** Messages only change places on the way to the dispatcher. */
  lemma HoldKeeps(p: Phase, flights: seq<Flight>, held: seq<nat>)
    requires Tied(p, [], [], flights) && Reapable(flights, held)
    ensures Tied(p, [], [], Hold(flights, held))
  {
    hide SequenceOf, Live, Reapable;
    var hs := Hold(flights, held);
    forall k | 0 <= k < |hs| && hs[k].place != Consumed
      ensures flights[k].place != Consumed && flights[k].owner == hs[k].owner && Live(p, [], [], hs[k])
    {
      HeldIsLive(p, flights, held, k);
    }
    forall w | 0 <= w < |p.workers| && HasFlight(flights, w) ensures HasFlight(hs, w) {
      var j :| 0 <= j < |flights| && flights[j].owner == w && flights[j].place != Consumed;
      assert hs[j].owner == w && hs[j].place != Consumed;
    }
  }

  lemma ReapedKeeps(s: State, held: seq<nat>)
    requires Good(s)
    ensures Good(OnReaped(s, held))
  {
    hide Sound, Tied, Selected, HeldOk, Hold, Reapable;
    if !s.p.stop && s.pc.Reap? && 0 < |held| <= s.pc.requested && Reapable(s.flights, held) {
      HoldKeeps(s.p, s.flights, held);
      HoldIsHeld(s.flights, held);
    }
  }

  // ---------------------------------------------------------------- taking requests

  /** The driver's sequences differ from those of every request that is out. */
  lemma FreshIsNew(p: Phase, sel: seq<nat>, flights: seq<Flight>, sequences: seq<u32>, w: nat, i: nat)
    requires Tied(p, sel, [], flights) && HeldOk([], flights) && FreshBatch(flights, sequences)
    requires w < |p.workers| && i < |sequences|
    ensures SequenceOf(p, sel, [], w) != sequences[i]
  {
    hide Request, Accepts, SequenceOf;
    if SequenceOf(p, sel, [], w) != 0 {
      assert HasFlight(flights, w);
      var k :| 0 <= k < |flights| && flights[k].owner == w && flights[k].place != Consumed;
      assert Live(p, sel, [], flights[k]);
      assert flights[k].place != Held;
    }
  }

  /** The sequences after the driver's answer: the new ones, and the old ones
      of everybody else. */
  lemma PledgesAdd(p: Phase, sel: seq<nat>, sequences: seq<u32>, w: nat)
    requires Selected(p, sel) && |sequences| <= |sel| && w < |p.workers|
    ensures SequenceOf(p, sel, sequences, w) ==
            if At(sel, w) < |sequences| then sequences[At(sel, w)] else SequenceOf(p, sel, [], w)
    ensures At(sel, w) < |sequences| ==> SequenceOf(p, sel, [], w) == 0
  {
    if At(sel, w) < |sequences| {
      assert w in sel;
    }
  }

  lemma TakenAreDifferent(p: Phase, sel: seq<nat>, flights: seq<Flight>, sequences: seq<u32>)
    requires Selected(p, sel) && Tied(p, sel, [], flights) && HeldOk([], flights)
    requires |sequences| <= |sel| && FreshBatch(flights, sequences)
    ensures AllDifferent(p, sel, sequences)
  {
    hide SequenceOf, AllLive, AllOut;
    forall v, w | 0 <= v < w < |p.workers| && SequenceOf(p, sel, sequences, v) != 0
      ensures SequenceOf(p, sel, sequences, v) != SequenceOf(p, sel, sequences, w)
    {
      PledgesAdd(p, sel, sequences, v);
      PledgesAdd(p, sel, sequences, w);
      if At(sel, v) < |sequences| {
        FreshIsNew(p, sel, flights, sequences, w, At(sel, v));
      }
      if At(sel, w) < |sequences| {
        FreshIsNew(p, sel, flights, sequences, v, At(sel, w));
      }
    }
  }

  /** Who is out already is not submitting. */
  lemma OutIsNotSelected(p: Phase, sel: seq<nat>, sequences: seq<u32>, f: Flight, i: nat)
    requires p.size <= MAX_ECHO_DATA_BYTES && Selected(p, sel) && Live(p, sel, [], f) && i < |sequences| <= |sel|
    ensures f.owner != sel[i]
  {
    hide Request, Accepts, SequenceOf;
    AtPlace(p, sel, i);
    PledgesAdd(p, sel, sequences, sel[i]);
  }

  lemma LaunchedOneEach(p: Phase, sel: seq<nat>, flights: seq<Flight>, sequences: seq<u32>)
    requires Selected(p, sel) && Tied(p, sel, [], flights) && |sequences| <= |sel|
    ensures OneEach(flights + Launched(p, sel, sequences))
  {
    hide Live, AllOut, AllDifferent, SequenceOf, HasFlight, At;
    var n := |flights|;
    var hs := flights + Launched(p, sel, sequences);
    forall j, k | 0 <= j < k < |hs| && hs[j].place != Consumed && hs[k].place != Consumed
      ensures hs[j].owner != hs[k].owner
    {
      if k < n {
        assert hs[j] == flights[j] && hs[k] == flights[k];
      } else if j < n {
        assert hs[j] == flights[j] && hs[k].owner == sel[k - n];
        OutIsNotSelected(p, sel, sequences, flights[j], k - n);
      } else {
        assert hs[j].owner == sel[j - n] && hs[k].owner == sel[k - n];
      }
    }
  }

  lemma LaunchedAllOut(p: Phase, sel: seq<nat>, flights: seq<Flight>, sequences: seq<u32>)
    requires Selected(p, sel) && Tied(p, sel, [], flights) && |sequences| <= |sel|
    ensures AllOut(p, sel, sequences, flights + Launched(p, sel, sequences))
  {
    hide AllLive, AllDifferent, SequenceOf;
    var hs := flights + Launched(p, sel, sequences);
    forall w | 0 <= w < |p.workers| && SequenceOf(p, sel, sequences, w) != 0 ensures HasFlight(hs, w) {
      PledgesAdd(p, sel, sequences, w);
      if At(sel, w) < |sequences| {
        assert hs[|flights| + At(sel, w)].owner == w;
      } else {
        var k :| 0 <= k < |flights| && flights[k].owner == w && flights[k].place != Consumed;
        assert hs[k] == flights[k];
      }
    }
  }

  lemma TakenKeepsTied(p: Phase, sel: seq<nat>, flights: seq<Flight>, sequences: seq<u32>)
    requires Sound(p) && Selected(p, sel) && Tied(p, sel, [], flights) && HeldOk([], flights)
    requires |sequences| <= |sel| && FreshBatch(flights, sequences)
    ensures Tied(p, sel, sequences, flights + Launched(p, sel, sequences))
    ensures HeldOk([], flights + Launched(p, sel, sequences))
  {
    TakenAreDifferent(p, sel, flights, sequences);
    LaunchedOneEach(p, sel, flights, sequences);
    LaunchedAllOut(p, sel, flights, sequences);
    hide Sound, AllLive, AllOut, OneEach, AllDifferent, SequenceOf, Request;
    forall w | 0 <= w < |p.workers| && SequenceOf(p, sel, [], w) != 0
      ensures SequenceOf(p, sel, sequences, w) == SequenceOf(p, sel, [], w)
    {
      PledgesAdd(p, sel, sequences, w);
    }
    forall i | 0 <= i < |sequences| ensures SequenceOf(p, sel, sequences, sel[i]) == sequences[i] {
      AtPlace(p, sel, i);
      PledgesAdd(p, sel, sequences, sel[i]);
    }
    LaunchedIsLive(p, sel, flights, sequences);
  }

  /** Each request taken is the one its worker built. */
  lemma LaunchedIsLive(p: Phase, sel: seq<nat>, flights: seq<Flight>, sequences: seq<u32>)
    requires Sound(p) && Selected(p, sel) && AllLive(p, sel, [], flights) && |sequences| <= |sel|
    requires p.size <= MAX_ECHO_DATA_BYTES
    requires forall i :: 0 <= i < |sequences| ==> sequences[i] != 0
    requires forall w :: 0 <= w < |p.workers| && SequenceOf(p, sel, [], w) != 0 ==>
               SequenceOf(p, sel, sequences, w) == SequenceOf(p, sel, [], w)
    requires forall i :: 0 <= i < |sequences| ==> SequenceOf(p, sel, sequences, sel[i]) == sequences[i]
    ensures AllLive(p, sel, sequences, flights + Launched(p, sel, sequences))
  {
    hide Request, Accepts, SeedOf, SequenceOf, At, Recorded, DistinctInFlight;
    var hs := flights + Launched(p, sel, sequences);
    forall k | 0 <= k < |hs| && hs[k].place != Consumed ensures Live(p, sel, sequences, hs[k]) {
      if k < |flights| {
        assert Live(p, sel, [], flights[k]);
      } else {
        var w := sel[k - |flights|];
        assert w in sel && p.workers[w].state == Submitting;
        WorkerIsOk(p, w);
        Restamp(p.size, p.workers[w].seed, sequences[k - |flights|]);
      }
    }
  }

  lemma FreshIsNonzero(flights: seq<Flight>, sequences: seq<u32>)
    requires FreshBatch(flights, sequences)
    ensures forall i :: 0 <= i < |sequences| ==> sequences[i] != 0
  {
  }

  lemma TakenKeeps(s: State, sequences: seq<u32>)
    requires Good(s)
    ensures Good(OnTaken(s, sequences))
  {
    hide Sound, Tied, Selected, HeldOk, Launched, FreshBatch;
    if !s.p.stop && s.pc.Submit? && 0 < |sequences| <= |s.pc.selected| && Indices(s.p, s.pc.selected) &&
        FreshBatch(s.flights, sequences) {
      TakenKeepsTied(s.p, s.pc.selected, s.flights, sequences);
      FreshIsNonzero(s.flights, sequences);
    }
  }

  // ---------------------------------------------------------------- dispatcher sections

  /** The owners of the first k messages of a batch. */
  predicate OwnerAmong(flights: seq<Flight>, held: seq<nat>, k: nat, w: nat)
    requires InRange(flights, held) && k <= |held|
  {
    exists i :: 0 <= i < k && flights[held[i]].owner == w
  }

  /** The workers as the first k responses of a batch leave them. */
  predicate FinishedUpTo(p: Phase, flights: seq<Flight>, held: seq<nat>, k: nat, q: Phase)
    requires InRange(flights, held) && k <= |held|
  {
    && |q.workers| == |p.workers| && q.size == p.size && q.total == p.total && q.go == p.go && q.stop == p.stop
    && (forall w :: 0 <= w < |p.workers| ==>
          if OwnerAmong(flights, held, k, w) then q.workers[w].state == Complete &&
              q.workers[w].target == p.workers[w].target
          else q.workers[w] == p.workers[w])
  }

  /** Every response of a batch finds its worker and is accepted. */
  lemma {:induction false} FinishKeeps(p: Phase, flights: seq<Flight>, held: seq<nat>, k: nat)
    requires Sound(p) && Tied(p, [], [], flights) && HeldOk(held, flights) && k <= |held|
    ensures var r := CompleteUpTo(p, SlotsOf(flights, held), k);
            r.ok && Sound(r.phase) && FinishedUpTo(p, flights, held, k, r.phase)
            && r.phase.completed == p.completed + k
  {
    hide Sound, Accepts, Request, CompleteOne, Live, SequenceOf;
    if k > 0 {
      FinishKeeps(p, flights, held, k - 1);
      var r := CompleteUpTo(p, SlotsOf(flights, held), k - 1);
      var f := flights[held[k - 1]];
      assert Live(p, [], [], f);
      LiveIsInFlight(p, f);
      NotYet(flights, held, k - 1);
      SoundIsBalanced(r.phase);
      CompleteKeeps(r.phase, f.owner, f.slot);
      CompletesOne(r.phase, f.owner, f.slot);
      FinishesOneMore(p, flights, held, k, r.phase, CompleteOne(r.phase, f.slot).phase);
    }
  }

  lemma LiveIsInFlight(p: Phase, f: Flight)
    requires p.size <= MAX_ECHO_DATA_BYTES && Live(p, [], [], f)
    ensures f.owner < |p.workers| && p.workers[f.owner].state == InFlight &&
          p.workers[f.owner].sequence == f.slot.sequence
    ensures f.place != Sent ==> Accepts(f.slot, p.size, p.workers[f.owner].seed)
  {
  }

  lemma NotYet(flights: seq<Flight>, held: seq<nat>, k: nat)
    requires OneEach(flights) && HeldOk(held, flights) && k < |held|
    ensures !OwnerAmong(flights, held, k, flights[held[k]].owner)
  {
  }

  lemma CompletesOne(p: Phase, i: nat, m: Slot)
    requires p.size <= MAX_ECHO_DATA_BYTES && i < |p.workers| && CompleteOne(p, m).ok
    ensures var q := CompleteOne(p, m).phase;
            q.total == p.total && q.go == p.go && q.stop == p.stop && q.completed == p.completed + 1
  {
    hide Accepts, FindFrom;
  }

  lemma FinishesOneMore(p: Phase, flights: seq<Flight>, held: seq<nat>, k: nat, r: Phase, q: Phase)
    requires InRange(flights, held) && 0 < k <= |held| && FinishedUpTo(p, flights, held, k - 1, r)
    requires flights[held[k - 1]].owner < |p.workers|
    requires !OwnerAmong(flights, held, k - 1, flights[held[k - 1]].owner)
    requires var i := flights[held[k - 1]].owner;
             q.workers == r.workers[i := Awake(r.workers[i].(state := Complete))]
    requires q.size == r.size && q.total == r.total && q.go == r.go && q.stop == r.stop
    ensures FinishedUpTo(p, flights, held, k, q)
  {
    forall w | 0 <= w < |p.workers|
      ensures OwnerAmong(flights, held, k, w) <==>
              OwnerAmong(flights, held, k - 1, w) || w == flights[held[k - 1]].owner
    {
      if OwnerAmong(flights, held, k, w) {
        var i :| 0 <= i < k && flights[held[i]].owner == w;
        assert i < k - 1 || w == flights[held[k - 1]].owner;
      }
      if OwnerAmong(flights, held, k - 1, w) {
        var i :| 0 <= i < k - 1 && flights[held[i]].owner == w;
        assert i < k;
      }
      assert flights[held[k - 1]].owner == w ==> OwnerAmong(flights, held, k, w);
    }
  }

  /** What remains out are the requests without a reaped response. */
  lemma DealtKeeps(p: Phase, flights: seq<Flight>, held: seq<nat>, q: Phase)
    requires Tied(p, [], [], flights) && HeldOk(held, flights) && FinishedUpTo(p, flights, held, |held|, q)
    ensures Tied(q, [], [], Dealt(flights)) && HeldOk([], Dealt(flights))
  {
    hide Request, Accepts;
    var hs := Dealt(flights);
    forall w | 0 <= w < |p.workers|
      ensures SequenceOf(q, [], [], w) == if OwnerAmong(flights, held, |held|, w) then 0 else SequenceOf(p, [], [], w)
    {
    }
    hide SequenceOf;
    forall k | 0 <= k < |hs| && hs[k].place != Consumed
      ensures Live(q, [], [], hs[k])
    {
      assert Live(p, [], [], flights[k]);
      StillOut(flights, held, k);
    }
    forall w | 0 <= w < |q.workers| && SequenceOf(q, [], [], w) != 0 ensures HasFlight(hs, w) {
      var k :| 0 <= k < |flights| && flights[k].owner == w && flights[k].place != Consumed;
      assert k !in held;
      assert hs[k] == flights[k];
    }
  }

  lemma StillOut(flights: seq<Flight>, held: seq<nat>, k: nat)
    requires OneEach(flights) && HeldOk(held, flights) && k < |flights| && Dealt(flights)[k].place != Consumed
    ensures Dealt(flights)[k] == flights[k] && !OwnerAmong(flights, held, |held|, flights[k].owner)
  {
  }

  /** The answers for a batch never clash with a request in flight. */
  lemma CommitKeeps(p: Phase, sel: seq<nat>, seqs: seq<u32>, k: nat)
    requires Sound(p) && Selected(p, sel) && |seqs| <= |sel| && k <= |sel| && AllDifferent(p, sel, seqs)
    requires forall i :: 0 <= i < |seqs| ==> seqs[i] != 0
    ensures var r := CommitUpTo(p, sel, seqs, k);
            r.ok && Sound(r.phase) && CommittedUpTo(p, sel, seqs, k, r.phase)
  {
    hide Sound, CommitUpTo, AllDifferent;
    forall i | 0 <= i < |seqs| ensures !InUse(p, seqs[i]) && forall j :: 0 <= j < i ==> seqs[j] != seqs[i] {
      NoClash(p, sel, seqs, i);
    }
    CommitsExactly(p, sel, seqs, k);
  }

  lemma NoClash(p: Phase, sel: seq<nat>, seqs: seq<u32>, k: nat)
    requires Selected(p, sel) && k < |seqs| <= |sel| && AllDifferent(p, sel, seqs)
    requires forall i :: 0 <= i < |seqs| ==> seqs[i] != 0
    ensures !InUse(p, seqs[k]) && forall j :: 0 <= j < k ==> seqs[j] != seqs[k]
  {
    AtPlace(p, sel, k);
    assert SequenceOf(p, sel, seqs, sel[k]) == seqs[k];
    forall v | 0 <= v < |p.workers| && p.workers[v].state == InFlight ensures p.workers[v].sequence != seqs[k] {
      assert v !in sel;
      assert v != sel[k];
      assert SequenceOf(p, sel, seqs, v) == p.workers[v].sequence;
    }
    forall j | 0 <= j < k ensures seqs[j] != seqs[k] {
      AtPlace(p, sel, j);
      assert SequenceOf(p, sel, seqs, sel[j]) == seqs[j];
    }
  }

  /** After the commit the workers know what the driver answered. */
  lemma CommitIsOut(p: Phase, sel: seq<nat>, seqs: seq<u32>, q: Phase)
    requires Selected(p, sel) && |seqs| <= |sel| && CommittedUpTo(p, sel, seqs, |sel|, q)
    ensures SameOut(p, sel, seqs, q, [], []) && Selected(q, [])
  {
    forall w | 0 <= w < |p.workers|
      ensures q.workers[w].state != Submitting && SequenceOf(q, [], [], w) == SequenceOf(p, sel, seqs, w)
    {
      assert At(sel, w) == |sel| <==> w !in sel;
    }
  }

  /** Selection sends nothing. */
  lemma SelectIsOut(p: Phase, q: Phase, sel: seq<nat>)
    requires SameRest(p, q) && Selected(p, []) && Selected(q, sel)
    requires forall i :: i in sel <==> 0 <= i < |p.workers| && p.workers[i].state == Ready
    requires forall i :: 0 <= i < |p.workers| ==>
               q.workers[i] == if i in sel then p.workers[i].(state := Submitting) else p.workers[i]
    ensures SameOut(p, [], [], q, sel, [])
  {
  }

  // ---------------------------------------------------------------- steps

  lemma TargetsStay(p: Phase, q: Phase)
    requires Shared(p) && |q.workers| == |p.workers| && q.total == p.total
    requires forall i :: 0 <= i < |p.workers| ==> q.workers[i].target == p.workers[i].target
    ensures Shared(q)
  {
    hide WorkerTarget;
  }

  lemma FinishStepKeeps(s: State)
    requires Good(s) && !s.p.stop && s.pc.Finish?
    ensures Good(OnDispatch(s))
    ensures CompleteUpTo(s.p, SlotsOf(s.flights, s.pc.held), |s.pc.held|).ok
  {
    hide Sound, Tied, Shared, CompleteUpTo, Selected;
    var held := s.pc.held;
    FinishKeeps(s.p, s.flights, held, |held|);
    var q := CompleteUpTo(s.p, SlotsOf(s.flights, held), |held|).phase;
    DealtKeeps(s.p, s.flights, held, q);
    TargetsStay(s.p, q);
    NoneSubmitting(s.p, s.flights, held, q);
  }

  lemma NoneSubmitting(p: Phase, flights: seq<Flight>, held: seq<nat>, q: Phase)
    requires InRange(flights, held) && FinishedUpTo(p, flights, held, |held|, q) && Selected(p, [])
    ensures Selected(q, [])
  {
  }

  lemma ChooseStepKeeps(s: State)
    requires Good(s) && !s.p.stop && s.pc.Choose?
    ensures Good(OnDispatch(s))
  {
    hide Sound, Tied, Shared, Selected, HeldOk, SelectUpTo, SameOut;
    var r := SelectUpTo(s.p, |s.p.workers|);
    SelectionKeeps(s.p, |s.p.workers|);
    SelectIsOut(s.p, r.phase, r.indices);
    TiedTransfer(s.p, [], [], r.phase, r.indices, [], s.flights);
    TargetsStay(s.p, r.phase);
    SoundIsBalanced(r.phase);
  }

  lemma CommitStepKeeps(s: State)
    requires Good(s) && !s.p.stop && s.pc.Commit?
    ensures Good(OnDispatch(s))
    ensures Indices(s.p, s.pc.selected) && |s.pc.sequences| <= |s.pc.selected|
    ensures CommitUpTo(s.p, s.pc.selected, s.pc.sequences, |s.pc.selected|).ok
  {
    hide Sound, Tied, Shared, HeldOk, CommitUpTo, SameOut;
    var sel, seqs := s.pc.selected, s.pc.sequences;
    TiedIsDifferent(s.p, sel, seqs, s.flights);
    CommitKeeps(s.p, sel, seqs, |sel|);
    var q := CommitUpTo(s.p, sel, seqs, |sel|).phase;
    CommitIsOut(s.p, sel, seqs, q);
    TiedTransfer(s.p, sel, seqs, q, [], [], s.flights);
    TargetsStay(s.p, q);
  }

  lemma TiedIsDifferent(p: Phase, sel: seq<nat>, seqs: seq<u32>, flights: seq<Flight>)
    requires Tied(p, sel, seqs, flights)
    ensures AllDifferent(p, sel, seqs)
  {
  }

  lemma GateStepKeeps(s: State)
    requires Good(s) && !s.p.stop && s.pc.Gathering?
    ensures Good(OnDispatch(s))
  {
    hide Sound, Tied, HeldOk, OpenGate, SameOut;
    if !AnyUnborn(s.p) {
      var q := OpenGate(s.p);
      GateKeeps(s.p);
      GateOnlyWakes(s.p);
      SameStateSameOut(s.p, q);
      TiedTransfer(s.p, [], [], q, [], [], s.flights);
      TargetsStay(s.p, q);
    }
  }

  lemma GateOnlyWakes(p: Phase)
    ensures var q := OpenGate(p);
            && |q.workers| == |p.workers| && q == p.(go := true, workers := q.workers)
            && forall i :: 0 <= i < |p.workers| ==> q.workers[i] == p.workers[i].(rest := q.workers[i].rest)
  {
  }

  lemma SameStateSameOut(p: Phase, q: Phase)
    requires |q.workers| == |p.workers| && q.size == p.size
    requires forall i :: 0 <= i < |p.workers| ==> q.workers[i] == p.workers[i].(rest := q.workers[i].rest)
    ensures SameOut(p, [], [], q, [], []) && (Selected(p, []) ==> Selected(q, []))
  {
  }

  lemma DispatchKeeps(s: State)
    requires Good(s)
    ensures Good(OnDispatch(s))
  {
    hide Tied, Shared, HeldOk, Selected, SelectUpTo, CommitUpTo, CompleteUpTo, OpenGate, Count, IssuedBy, TargetsOf,
        Recorded, Seeded, DistinctInFlight, WorkerOk;
    if !s.p.stop {
      CountersInRange(s.p);
      match s.pc {
        case Gathering => GateStepKeeps(s);
        case Finish(_) => FinishStepKeeps(s);
        case Choose => ChooseStepKeeps(s);
        case Commit(_, _) => CommitStepKeeps(s);
        case Consume => ConsumeStepKeeps(s);
        case Check =>
        case Look =>
        case Settle =>
        case Poll(_, _) =>
        case Reap(_) =>
        case Submit(_) =>
        case Stopped(_) =>
      }
    }
  }

  lemma ConsumeStepKeeps(s: State)
    requires Good(s) && !s.p.stop && s.pc.Consume?
    ensures Good(OnDispatch(s))
  {
    hide SameOut, Tied, HeldOk, Sound, Selected, Shared;
    var q := s.p.(wake := 0);
    NoWakeKeeps(s.p);
    SameStateSameOut(s.p, q);
    TiedTransfer(s.p, [], [], q, [], [], s.flights);
    TargetsStay(s.p, q);
  }

  lemma NoWakeKeeps(p: Phase)
    requires Sound(p)
    ensures Sound(p.(wake := 0))
  {
    hide Count, IssuedBy, TargetsOf, WorkerOk, SeedOf, Request;
    assert Recorded(p.(wake := 0));
  }

  lemma StepKeeps(s: State, l: Label)
    requires Good(s)
    ensures Good(Step(s, l))
  {
    hide Good, OnDispatch, OnTaken, OnReaped, OnAnswer, WorkerRuns;
    GoodSize(s);
    match l {
      case WorkerStep(i) =>
        if i < |s.p.workers| {
          WorkerStepKeeps(s, i);
        }
      case Dispatch => DispatchKeeps(s);
      case Taken(sequences) => TakenKeeps(s, sequences);
      case Reaped(held) => ReapedKeeps(s, held);
      case Answer(k) => AnswerKeeps(s, k);
      case Again => AgainKeeps(s);
      case HardError(code) => ErrorKeeps(s, code);
      case Room => EnvironmentKeeps(s);
      case Timeout => EnvironmentKeeps(s);
    }
  }

  lemma GoodSize(s: State)
    requires Good(s)
    ensures s.p.size <= MAX_ECHO_DATA_BYTES
  {
  }

  lemma AgainKeeps(s: State)
    requires Good(s)
    ensures Good(OnAgain(s))
  {
    hide Sound, Tied, Shared, HeldOk, Selected;
  }

  lemma ErrorKeeps(s: State, code: int)
    requires Good(s)
    ensures Good(OnHardError(s, code))
  {
    hide Sound, Tied, Shared, HeldOk, Selected, Accepts;
    if s.pc.Submit? && Indices(s.p, s.pc.selected) {
      SizeStays(s.p, s.pc.selected, |s.pc.selected|);
    }
  }

  lemma {:induction false} SizeStays(p: Phase, sel: seq<nat>, k: nat)
    requires Indices(p, sel) && k <= |sel|
    ensures CommitUpTo(p, sel, [], k).phase.size == p.size
  {
    if k > 0 {
      SizeStays(p, sel, k - 1);
    }
  }

  lemma EnvironmentKeeps(s: State)
    requires Good(s)
    ensures Good(Step(s, Room)) && Good(Step(s, Timeout))
  {
    hide Sound, Tied, Shared, HeldOk, Selected;
  }

  // ---------------------------------------------------------------- theorems

  function Run(s: State, ls: seq<Label>): State
    requires s.p.size <= MAX_ECHO_DATA_BYTES
    decreases |ls|
  {
    if ls == [] then s else SizeOfStep(s, ls[0]); Run(Step(s, ls[0]), ls[1..])
  }

  lemma SizeOfStep(s: State, l: Label)
    requires s.p.size <= MAX_ECHO_DATA_BYTES
    ensures Step(s, l).p.size == s.p.size
  {
    hide Request, SeedOf, Respond, Accepts;
    match l {
      case WorkerStep(i) =>
      case Dispatch => SizeOfDispatch(s);
      case HardError(code) =>
        if s.pc.Submit? && Indices(s.p, s.pc.selected) {
          SizeStays(s.p, s.pc.selected, |s.pc.selected|);
        }
      case Taken(_) =>
      case Again =>
      case Reaped(_) =>
      case Answer(_) =>
      case Room =>
      case Timeout =>
    }
  }

  lemma SizeOfDispatch(s: State)
    requires s.p.size <= MAX_ECHO_DATA_BYTES
    ensures OnDispatch(s).p.size == s.p.size
  {
    hide CommitOne, CompleteOne, SelectOne;
    SizeOfSelection(s.p, |s.p.workers|);
    if s.pc.Commit? && Indices(s.p, s.pc.selected) && |s.pc.sequences| <= |s.pc.selected| {
      SizeOfCommit(s.p, s.pc.selected, s.pc.sequences, |s.pc.selected|);
    }
  }

  lemma {:induction false} SizeOfSelection(p: Phase, k: nat)
    requires k <= |p.workers|
    ensures SelectUpTo(p, k).phase.size == p.size
  {
    if k > 0 {
      SizeOfSelection(p, k - 1);
    }
  }

  lemma {:induction false} SizeOfCommit(p: Phase, sel: seq<nat>, seqs: seq<u32>, k: nat)
    requires Indices(p, sel) && |seqs| <= |sel| && k <= |sel|
    ensures CommitUpTo(p, sel, seqs, k).phase.size == p.size
  {
    if k > 0 {
      SizeOfCommit(p, sel, seqs, k - 1);
    }
  }

  lemma {:induction false} RunKeeps(s: State, ls: seq<Label>)
    requires Good(s) && s.p.size <= MAX_ECHO_DATA_BYTES
    ensures Good(Run(s, ls))
    decreases |ls|
  {
    hide Good, Step;
    if ls != [] {
      SizeOfStep(s, ls[0]);
      StepKeeps(s, ls[0]);
      RunKeeps(Step(s, ls[0]), ls[1..]);
    }
  }

  lemma {:induction false} FreshWorkers(total: nat, workers: nat, k: nat)
    requires workers > 0
    ensures Count(NewWorkers(total, workers, k), Ready) == 0 && Count(NewWorkers(total, workers, k), Submitting) == 0
    ensures Count(NewWorkers(total, workers, k), InFlight) == 0 && IssuedBy(NewWorkers(total, workers, k)) == 0
    ensures TargetsOf(NewWorkers(total, workers, k)) == TargetSum(total, workers, k)
  {
    hide WorkerTarget;
    if k > 0 {
      FreshWorkers(total, workers, k - 1);
      var ws := NewWorkers(total, workers, k - 1);
      var w := NewWorker(total, workers, k - 1);
      assert NewWorkers(total, workers, k) == ws + [w];
      assert (ws + [w])[..k - 1] == ws && (ws + [w])[k - 1] == w;
    }
  }

  lemma StartIsSound(total: nat, workers: nat, size: nat, seedBase: u32)
    requires workers > 0 && size <= MAX_ECHO_DATA_BYTES
    ensures Sound(NewPhase(NewWorkers(total, workers, workers), size, seedBase, total))
    ensures Shared(NewPhase(NewWorkers(total, workers, workers), size, seedBase, total))
  {
    hide SeedOf, Request, WorkerTarget, Count, IssuedBy, TargetsOf, TargetSum;
    FreshWorkers(total, workers, workers);
    TargetsSumToTotal(total, workers);
  }

  lemma StartIsGood(total: nat, workers: nat, size: nat, seedBase: u32, gpio: Gpio)
    requires workers > 0 && size <= MAX_ECHO_DATA_BYTES
    ensures Good(Start(total, workers, size, seedBase, gpio))
  {
    hide Request, Accepts, WorkerTarget, Sound, Shared;
    StartIsSound(total, workers, size, seedBase);
    assert Tied(Start(total, workers, size, seedBase, gpio).p, [], [], []);
  }

  /** Every run: any number of workers, any total, any interleaving of the
      workers, the dispatcher, the firmware and the driver. */
  lemma EveryRunIsGood(total: nat, workers: nat, size: nat, seedBase: u32, gpio: Gpio, ls: seq<Label>)
    requires workers > 0 && size <= MAX_ECHO_DATA_BYTES
    ensures Good(Run(Start(total, workers, size, seedBase, gpio), ls))
  {
    hide Good, Run;
    StartIsGood(total, workers, size, seedBase, gpio);
    RunKeeps(Start(total, workers, size, seedBase, gpio), ls);
  }

  /** The states that runs lead to. */
  ghost predicate Reachable(s: State) {
    && s.p.size <= MAX_ECHO_DATA_BYTES
    && exists total: nat, workers: nat, seedBase: u32, gpio: Gpio, ls: seq<Label> ::
         workers > 0 && s == Run(Start(total, workers, s.p.size, seedBase, gpio), ls)
  }

  lemma ReachableIsGood(s: State)
    requires Reachable(s)
    ensures Good(s)
  {
    hide Good, Run, NewWorkers;
    var total: nat, workers: nat, seedBase: u32, gpio: Gpio, ls: seq<Label> :|
      workers > 0 && s == Run(Start(total, workers, s.p.size, seedBase, gpio), ls);
    EveryRunIsGood(total, workers, s.p.size, seedBase, gpio, ls);
  }

  /** While the phase has not stopped, its counters are the numbers of workers
      in those states, every operation issued is completed or outstanding, and
      no two requests in flight share a sequence. */
  lemma CountersAreExact(s: State)
    requires Reachable(s) && !s.p.stop
    ensures s.p.ready == Count(s.p.workers, Ready) && s.p.submitting == Count(s.p.workers, Submitting)
    ensures s.p.inFlight == Count(s.p.workers, InFlight)
    ensures IssuedBy(s.p.workers) == s.p.completed + s.p.ready + s.p.submitting + s.p.inFlight <= s.p.total
    ensures forall i, j :: 0 <= i < j < |s.p.workers| ==>
              s.p.workers[i].state == InFlight && s.p.workers[j].state == InFlight ==>
              s.p.workers[i].sequence != s.p.workers[j].sequence
  {
    ReachableIsGood(s);
    hide Reachable;
    hide Tied, Recorded, Seeded, WorkerOk;
    CountersInRange(s.p);
  }

  /** No wakeup is lost: when the dispatcher polls, every ready worker was seen
      by the snapshot that asks for POLLOUT, or its notification is still there;
      and POLLIN is asked for whenever a request is in flight. */
  lemma NoLostWakeup(s: State, i: nat)
    requires Reachable(s) && !s.p.stop && s.pc.Poll? && i < |s.p.workers|
    ensures s.p.workers[i].state == Ready ==> s.pc.wantOut || s.p.wake > 0
    ensures s.p.workers[i].state == InFlight ==> s.pc.wantIn
  {
    ReachableIsGood(s);
    hide Reachable;
    hide Tied, Recorded, Seeded;
    if s.p.workers[i].state == Ready {
      CountIsPositive(s.p.workers, i, Ready);
    }
    if s.p.workers[i].state == InFlight {
      CountIsPositive(s.p.workers, i, InFlight);
    }
  }

  /** A worker thread whose turn has come. */
  predicate Runnable(p: Phase, i: nat)
    requires i < |p.workers|
  {
    var w := p.workers[i];
    || w.rest.Unborn?
    || (w.rest.Gate? && w.rest.woken && p.go)
    || (w.rest.Sleeping? && w.rest.woken && w.state == Complete)
  }

  /** The dispatcher never polls in vain: a message is with the firmware or
      answered and POLLIN is asked for, or POLLOUT is asked for, or a
      notification waits, or a worker thread can run. */
  lemma PollIsNeverInVain(s: State) returns (k: nat)
    requires Reachable(s) && !s.p.stop && s.pc.Poll?
    ensures
      || s.pc.wantOut || s.p.wake > 0
      || (s.pc.wantIn && k < |s.flights| && (s.flights[k].place == Sent || s.flights[k].place == Replied))
      || (k < |s.p.workers| && Runnable(s.p, k))
  {
    ReachableIsGood(s);
    hide Reachable;
    hide Recorded, Seeded, Count, IssuedBy, TargetsOf, Accepts, Request;
    k := 0;
    if !s.pc.wantOut && s.p.wake == 0 {
      if s.p.inFlight > 0 {
        var w := SomeCounted(s.p.workers, InFlight);
        k := FlightOf(s, w);
      } else {
        k := Unfinished(s.p);
      }
    }
  }

  lemma FlightOf(s: State, w: nat) returns (k: nat)
    requires Good(s) && !s.p.stop && s.pc.Poll? && w < |s.p.workers| && s.p.workers[w].state == InFlight
    ensures k < |s.flights| && (s.flights[k].place == Sent || s.flights[k].place == Replied)
  {
    hide Recorded, Seeded, Balanced, Accepts, Request, AllLive, AllDifferent, OneEach;
    assert s.p.workers[w].sequence != 0;
    assert SequenceOf(s.p, [], [], w) != 0;
    assert HasFlight(s.flights, w);
    k :| 0 <= k < |s.flights| && s.flights[k].owner == w && s.flights[k].place != Consumed;
  }

  lemma NoneIsSubmitting(p: Phase)
    requires Selected(p, [])
    ensures Count(p.workers, Submitting) == 0
  {
    if Count(p.workers, Submitting) > 0 {
      var i := SomeCounted(p.workers, Submitting);
      assert false;
    }
  }

  /** With nothing outstanding and operations left, some worker can go on. */
  lemma Unfinished(p: Phase) returns (i: nat)
    requires Balanced(p) && Selected(p, []) && p.go
    requires p.ready == 0 && p.inFlight == 0 && p.completed < p.total
    ensures i < |p.workers| && Runnable(p, i)
  {
    hide Count, IssuedBy, TargetsOf;
    NoneIsSubmitting(p);
    i := BehindTarget(p.workers);
    assert WorkerOk(p.workers[i], p.go);
    if p.workers[i].state == Ready {
      CountIsPositive(p.workers, i, Ready);
    }
    if p.workers[i].state == InFlight {
      CountIsPositive(p.workers, i, InFlight);
    }
    assert p.workers[i].state != Submitting;
  }

  lemma {:induction false} BehindTarget(ws: seq<Worker>) returns (i: nat)
    requires IssuedBy(ws) < TargetsOf(ws)
    ensures i < |ws| && ws[i].issued < ws[i].target
  {
    i := |ws| - 1;
    if ws[i].issued >= ws[i].target {
      i := BehindTarget(ws[..i]);
    }
  }

  /** No reaped response is unknown or wrong, no submitted request clashes, and
      every latency has its place: the EPROTO exits are never taken. */
  lemma NoProtocolError(s: State)
    requires Reachable(s) && !s.p.stop
    ensures s.pc.Finish? ==>
              && InRange(s.flights, s.pc.held)
              && CompleteUpTo(s.p, SlotsOf(s.flights, s.pc.held), |s.pc.held|).ok
              && s.p.completed + |s.pc.held| <= s.p.total
    ensures s.pc.Commit? ==>
              && Indices(s.p, s.pc.selected) && |s.pc.sequences| <= |s.pc.selected|
              && CommitUpTo(s.p, s.pc.selected, s.pc.sequences, |s.pc.selected|).ok
  {
    ReachableIsGood(s);
    hide Reachable;
    hide Sound, Tied, Selected, CompleteUpTo, CommitUpTo;
    if s.pc.Finish? {
      FinishStepKeeps(s);
      FinishKeeps(s.p, s.flights, s.pc.held, |s.pc.held|);
      var q := CompleteUpTo(s.p, SlotsOf(s.flights, s.pc.held), |s.pc.held|).phase;
      SoundIsBalanced(q);
      CountersInRange(q);
    }
    if s.pc.Commit? {
      CommitStepKeeps(s);
    }
  }

  /** When dispatch_phase returns zero, exactly the operations whose number is
      below the total have been completed, and none twice. */
  lemma EveryOperationOnce(s: State, worker: nat, operation: nat)
    requires Reachable(s) && !s.p.stop && s.pc.Stopped? && worker < |s.p.workers|
    ensures s.pc.status == 0 && s.p.completed == s.p.total == |s.p.finished|
    ensures forall a, b :: 0 <= a < b < |s.p.finished| ==> s.p.finished[a] != s.p.finished[b]
    ensures Job(worker, operation) in s.p.finished <==> Assigned(|s.p.workers|, worker, operation) < s.p.total
  {
    ReachableIsGood(s);
    hide Reachable;
    hide Tied, Seeded, Count, IssuedBy, TargetsOf, WorkerTarget, Assigned, DistinctInFlight, WorkerOk;
    ShareIsRange(s.p.total, |s.p.workers|, worker, operation);
    AllOver(s.p, worker);
  }

  lemma AllOver(p: Phase, w: nat)
    requires Balanced(p) && p.completed == p.total && w < |p.workers|
    ensures Over(p.workers[w]) == p.workers[w].target
  {
    IssuedWithinTargets(p.workers);
    if Outstanding(p.workers[w].state) {
      CountIsPositive(p.workers, w, p.workers[w].state);
    }
  }
}
