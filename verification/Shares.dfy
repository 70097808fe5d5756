/** How the threaded benchmark shares out its operations. */
module Shares {
  import opened Wrap

  /** worker_target. */
  function WorkerTarget(total: nat, workers: nat, worker: nat): nat
    requires workers > 0
  {
    total / workers + if worker < total % workers then 1 else 0
  }

  /** What the first k workers do together. */
  function TargetSum(total: nat, workers: nat, k: nat): nat
    requires workers > 0
  {
    if k == 0 then 0 else TargetSum(total, workers, k - 1) + WorkerTarget(total, workers, k - 1)
  }

  /** The number of an operation of a worker, which also selects its seed. */
  function Assigned(workers: nat, worker: nat, operation: nat): nat {
    operation * workers + worker
  }

  lemma {:induction false} TargetSumIs(total: nat, workers: nat, k: nat)
    requires workers > 0 && k <= workers
    ensures TargetSum(total, workers, k) == k * (total / workers) + if k < total % workers then k else total % workers
  {
    if k > 0 {
      TargetSumIs(total, workers, k - 1);
      OneMore(k, total / workers);
    }
  }

  lemma OneMore(k: nat, q: nat)
    requires k > 0
    ensures k * q == (k - 1) * q + q
  {
  }

  /** No operation is left out of the shares, and none is added. */
  lemma TargetsSumToTotal(total: nat, workers: nat)
    requires workers > 0
    ensures TargetSum(total, workers, workers) == total
  {
    TargetSumIs(total, workers, workers);
  }

  lemma {:induction false} RowsApart(workers: nat, a: nat, b: nat)
    requires a < b
    ensures a * workers + workers <= b * workers
  {
    if a + 1 < b {
      RowsApart(workers, a, b - 1);
    }
  }

  /** A worker's share is exactly its operations whose number is in range. */
  lemma ShareIsRange(total: nat, workers: nat, worker: nat, operation: nat)
    requires worker < workers
    ensures operation < WorkerTarget(total, workers, worker) <==> Assigned(workers, worker, operation) < total
  {
    var q, r := total / workers, total % workers;
    Row(total, workers);
    if operation < q {
      RowsApart(workers, operation, q);
    } else if operation > q {
      RowsApart(workers, q, operation);
    }
  }

  lemma Row(n: nat, workers: nat)
    requires workers > 0
    ensures n == (n / workers) * workers + n % workers
  {
  }

  /** Different operations have different numbers. */
  lemma NumbersDiffer(workers: nat, v: nat, a: nat, w: nat, b: nat)
    requires v < workers && w < workers && Assigned(workers, v, a) == Assigned(workers, w, b)
    ensures v == w && a == b
  {
    ModIsUnique(Assigned(workers, v, a), workers, a, v);
    ModIsUnique(Assigned(workers, w, b), workers, b, w);
  }

  /** Every number in range belongs to an operation of some worker's share. */
  lemma EveryNumberIsAssigned(total: nat, workers: nat, n: nat)
    requires workers > 0 && n < total
    ensures n % workers < workers && n / workers < WorkerTarget(total, workers, n % workers)
    ensures Assigned(workers, n % workers, n / workers) == n
  {
    ShareIsRange(total, workers, n % workers, n / workers);
  }

  /** The seed of operation number n, in uint32_t. */
  function SeedAt(base: u32, n: nat): u32 {
    (base + n) % TWO_32
  }

  /** Seeds count up from the base and go round at 2^32. */
  lemma SeedsCountUp(base: u32, n: nat)
    ensures SeedAt(base, 0) == base
    ensures SeedAt(base, n + 1) == if SeedAt(base, n) == 0xffff_ffff then 0 else SeedAt(base, n) + 1
  {
    var q, r := (base + n) / TWO_32, (base + n) % TWO_32;
    if r + 1 < TWO_32 {
      ModIsUnique(base + n + 1, TWO_32, q, r + 1);
    } else {
      ModIsUnique(base + n + 1, TWO_32, q + 1, 0);
    }
  }

  /** The seeds of up to 2^32 operations are pairwise different. */
  lemma SeedsDiffer(base: u32, m: nat, n: nat)
    requires m < TWO_32 && n < TWO_32 && SeedAt(base, m) == SeedAt(base, n)
    ensures m == n
  {
    var d := (base + m) / TWO_32 - (base + n) / TWO_32;
    assert m - n == d * TWO_32;
  }

  /** The shares already handed out when a number is reached. */
  predicate Seen(seen: seq<bool>, total: nat, workers: nat, worker: nat, operation: nat)
    requires |seen| == total && workers > 0
  {
    forall n :: 0 <= n < total ==>
      (seen[n] <==> n % workers < worker || (n % workers == worker && n / workers < operation))
  }

  /** The exhaustive part of run_self_test for one pair of inputs; it passes
      for every pair, not only for those that the program tries. */
  method SelfTest(total: nat, workers: nat) returns (pass: bool)
    requires workers > 0
    ensures pass
  {
    hide Seen, Assigned, WorkerTarget;
    var seen := new bool[total](_ => false);
    var sum := 0;
    NothingSeen(seen[..], total, workers);
    var worker := 0;
    while worker < workers
      invariant worker <= workers
      invariant sum == TargetSum(total, workers, worker)
      invariant Seen(seen[..], total, workers, worker, 0)
    {
      var target := WorkerTarget(total, workers, worker);
      sum := sum + target;
      var operation := 0;
      while operation < target
        invariant operation <= target
        invariant Seen(seen[..], total, workers, worker, operation)
      {
        var number := Assigned(workers, worker, operation);
        ShareIsRange(total, workers, worker, operation);
        NotSeenYet(seen[..], total, workers, worker, operation);
        if number >= total || seen[number] {
          return false;
        }
        ghost var before := seen[..];
        seen[number] := true;
        SeeNext(before, total, workers, worker, operation);
        assert seen[..] == before[number := true];
        operation := operation + 1;
      }
      WorkerSeen(seen[..], total, workers, worker);
      worker := worker + 1;
    }
    TargetsSumToTotal(total, workers);
    if sum != total {
      return false;
    }
    AllSeen(seen[..], total, workers);
    for n := 0 to total {
      if !seen[n] {
        return false;
      }
    }
    return true;
  }

  lemma NothingSeen(seen: seq<bool>, total: nat, workers: nat)
    requires |seen| == total && workers > 0 && forall n :: 0 <= n < total ==> !seen[n]
    ensures Seen(seen, total, workers, 0, 0)
  {
  }

  lemma NotSeenYet(seen: seq<bool>, total: nat, workers: nat, worker: nat, operation: nat)
    requires |seen| == total && worker < workers && Seen(seen, total, workers, worker, operation)
    requires Assigned(workers, worker, operation) < total
    ensures !seen[Assigned(workers, worker, operation)]
  {
    ModIsUnique(Assigned(workers, worker, operation), workers, operation, worker);
  }

  lemma SeeNext(seen: seq<bool>, total: nat, workers: nat, worker: nat, operation: nat)
    requires |seen| == total && worker < workers && Seen(seen, total, workers, worker, operation)
    requires Assigned(workers, worker, operation) < total
    ensures Seen(seen[Assigned(workers, worker, operation) := true], total, workers, worker, operation + 1)
  {
    var a := Assigned(workers, worker, operation);
    ModIsUnique(a, workers, operation, worker);
    forall n | 0 <= n < total && n % workers == worker && n / workers == operation ensures n == a {
      assert n == (n / workers) * workers + n % workers;
    }
  }

  lemma WorkerSeen(seen: seq<bool>, total: nat, workers: nat, worker: nat)
    requires |seen| == total && worker < workers
    requires Seen(seen, total, workers, worker, WorkerTarget(total, workers, worker))
    ensures Seen(seen, total, workers, worker + 1, 0)
  {
    forall n | 0 <= n < total && n % workers == worker ensures n / workers < WorkerTarget(total, workers, worker) {
      EveryNumberIsAssigned(total, workers, n);
    }
  }

  lemma AllSeen(seen: seq<bool>, total: nat, workers: nat)
    requires |seen| == total && workers > 0 && Seen(seen, total, workers, workers, 0)
    ensures forall n :: 0 <= n < total ==> seen[n]
  {
  }
}
