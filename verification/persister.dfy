/** The write-behind queue of internal/persist/persister.go: batches leave in the order in
    which snapshots were drained, and a save is retried a bounded number of times. */
module Persister {
  import opened Clock
  import opened AssetModel
  import opened Repositories
  import opened Storage

  // ---------- collectBatch ----------

  /** What one `collectBatch` takes and what it leaves pending. */
  function Taken<T>(pending: seq<T>, drained: seq<T>, batchSize: int): seq<T> {
    var all := pending + drained;
    if 0 < batchSize < |all| then all[..batchSize] else all
  }

  function Left<T>(pending: seq<T>, drained: seq<T>, batchSize: int): seq<T> {
    var all := pending + drained;
    if 0 < batchSize < |all| then all[batchSize..] else []
  }

  /** The batches of a run of flushes, and what is pending after it. */
  function Batches<T>(pending: seq<T>, drains: seq<seq<T>>, batchSize: int): seq<seq<T>> {
    if drains == [] then []
    else
      var n := |drains| - 1;
      Batches(pending, drains[..n], batchSize) + [Taken(Pending(pending, drains[..n], batchSize), drains[n], batchSize)]
  }

  function Pending<T>(pending: seq<T>, drains: seq<seq<T>>, batchSize: int): seq<T> {
    if drains == [] then pending
    else
      var n := |drains| - 1;
      Left(Pending(pending, drains[..n], batchSize), drains[n], batchSize)
  }

  /** Conservation: the batches in the order in which they were handed to SaveBatch, followed
      by what is pending, are all drained snapshots in the order in which they were drained. */
  lemma {:induction false} NothingLostOrReordered<T>(pending: seq<T>, drains: seq<seq<T>>, batchSize: int)
    ensures Concat(Batches(pending, drains, batchSize)) + Pending(pending, drains, batchSize) == pending + Concat(drains)
  {
    hide Taken, Left;
    if drains == [] {
      assert pending + Concat(drains) == pending;
    } else {
      var n := |drains| - 1;
      var before, rest := Batches(pending, drains[..n], batchSize), Pending(pending, drains[..n], batchSize);
      var batch, left := Taken(rest, drains[n], batchSize), Left(rest, drains[n], batchSize);
      NothingLostOrReordered(pending, drains[..n], batchSize);
      TakenAndLeft(rest, drains[n], batchSize);
      var all := Batches(pending, drains, batchSize);
      assert all[..n] == before by {
        BatchCount(pending, drains[..n], batchSize);
      }
      calc {
        Concat(all) + left;
        (Concat(before) + batch) + left;
        Concat(before) + (batch + left);
        (Concat(before) + rest) + drains[n];
        (pending + Concat(drains[..n])) + drains[n];
        pending + Concat(drains);
      }
    }
  }

  lemma TakenAndLeft<T>(pending: seq<T>, drained: seq<T>, batchSize: int)
    ensures Taken(pending, drained, batchSize) + Left(pending, drained, batchSize) == pending + drained
  {
  }

  lemma {:induction false} BatchCount<T>(pending: seq<T>, drains: seq<seq<T>>, batchSize: int)
    ensures |Batches(pending, drains, batchSize)| == |drains|
  {
    if drains != [] {
      BatchCount(pending, drains[..|drains| - 1], batchSize);
    }
  }

  lemma {:induction false} BatchesAreBounded<T>(pending: seq<T>, drains: seq<seq<T>>, batchSize: int)
    requires batchSize > 0
    ensures forall b <- Batches(pending, drains, batchSize) :: |b| <= batchSize
  {
    if drains != [] {
      BatchesAreBounded(pending, drains[..|drains| - 1], batchSize);
    }
  }

  /** k flushes that drain nothing new take k batches off the queue, oldest first; so a
      shutdown, which flushes once, leaves everything beyond one batch behind. */
  lemma {:induction false} QuietFlushes<T>(pending: seq<T>, drains: seq<seq<T>>, batchSize: int)
    requires batchSize > 0 && forall d <- drains :: d == []
    ensures 0 <= |drains| * batchSize
    ensures Pending(pending, drains, batchSize) == From(pending, |drains| * batchSize)
    ensures |Pending(pending, drains, batchSize)|
      == if |drains| * batchSize < |pending| then |pending| - |drains| * batchSize else 0
  {
    hide From, Left;
    if drains != [] {
      var n := |drains| - 1;
      assert drains[n] in drains && forall d <- drains[..n] :: d in drains;
      QuietFlushes(pending, drains[..n], batchSize);
      NextMultiple(n, batchSize);
      OneQuietFlush(pending, n * batchSize, batchSize);
    } else {
      FromStart(pending, batchSize);
    }
  }

  /** What is left of a queue without its first k elements. */
  function From<T>(queue: seq<T>, k: nat): (rest: seq<T>)
    ensures |rest| == if k < |queue| then |queue| - k else 0
  {
    queue[if k < |queue| then k else |queue|..]
  }

  lemma NextMultiple(n: nat, b: int)
    requires b > 0
    ensures n * b >= 0 && (n + 1) * b == n * b + b
  {
  }

  lemma FromStart<T>(queue: seq<T>, b: int)
    ensures 0 * b == 0 && From(queue, 0) == queue
  {
  }

  lemma OneQuietFlush<T>(pending: seq<T>, k: nat, batchSize: int)
    requires batchSize > 0
    ensures Left(From(pending, k), [], batchSize) == From(pending, k + batchSize)
  {
    assert From(pending, k) + [] == From(pending, k);
  }

  // ---------- saveWithRetry ----------

  /** How one save attempt ends: well, or with an error at some snapshot (or later, at the
      commit), which may be that of a cancelled context. */
  datatype Answer = Saved | Failed(at: nat, canceled: bool)

  datatype Result = Ok | Error(cause: Answer) | TimedOut

  const BACKOFF_CAP: Duration := 5 * SECOND
  const DEFAULT_BACKOFF: Duration := 100_000_000

  function NextBackoff(b: Duration): Duration {
    if Wrap64(2 * b) > BACKOFF_CAP then BACKOFF_CAP else Wrap64(2 * b)
  }

  /** The duration of the i-th wait. */
  function BackoffAt(b0: Duration, i: nat): Duration {
    if i == 0 then b0 else NextBackoff(BackoffAt(b0, i - 1))
  }

  function Pow2(i: nat): (p: nat)
    ensures p >= 1
  {
    if i == 0 then 1 else 2 * Pow2(i - 1)
  }

  /** Five seconds at most. */
  function Capped(n: int): int { if n > 5_000_000_000 then 5_000_000_000 else n }

  lemma NextOfSmall(b: Duration)
    requires 0 < b <= MAX_DURATION / 2
    ensures NextBackoff(b) == Capped(2 * b)
  {
    assert Wrap64(2 * b) == 2 * b;
  }

  lemma {:induction false} BackoffDoubles(b0: Duration, i: nat)
    requires 0 < b0 <= MAX_DURATION / 2 && i >= 1
    ensures BackoffAt(b0, i) == Capped(b0 * Pow2(i)) && 0 < BackoffAt(b0, i)
  {
    hide NextBackoff;
    if i > 1 {
      BackoffDoubles(b0, i - 1);
      NextOfSmall(BackoffAt(b0, i - 1));
      assert b0 * Pow2(i) == 2 * (b0 * Pow2(i - 1));
    } else {
      NextOfSmall(b0);
      assert BackoffAt(b0, 1) == NextBackoff(b0) && Pow2(1) == 2;
    }
  }

  /** The waits double up to five seconds, exactly for the first backoffs that can be doubled
      in 64 bits; for a larger one the second wait is negative and does not wait at all. */
  lemma BackoffDoublesIff(b0: Duration)
    requires b0 > 0
    ensures (forall i: nat :: i >= 1 ==> BackoffAt(b0, i) == Capped(b0 * Pow2(i))) <==> b0 <= MAX_DURATION / 2
    ensures b0 > MAX_DURATION / 2 ==> BackoffAt(b0, 1) < 0
  {
    if b0 <= MAX_DURATION / 2 {
      forall i: nat | i >= 1 ensures BackoffAt(b0, i) == Capped(b0 * Pow2(i)) {
        BackoffDoubles(b0, i);
      }
    } else {
      assert BackoffAt(b0, 1) == NextBackoff(b0) && Pow2(1) == 2;
      assert BackoffAt(b0, 1) != Capped(b0 * Pow2(1));
      assert Wrap64(2 * b0) == 2 * b0 - 0x1_0000_0000_0000_0000;
    }
  }

  function Sum(waits: seq<Duration>): int {
    if waits == [] then 0 else Sum(waits[..|waits| - 1]) + waits[|waits| - 1]
  }

  lemma {:induction false} WaitsAreShort(b0: Duration, waits: seq<Duration>)
    requires 0 < b0 <= MAX_DURATION / 2
    requires forall i | 0 <= i < |waits| :: waits[i] == BackoffAt(b0, i)
    ensures waits != [] ==> Sum(waits) <= b0 + (|waits| - 1) * 5_000_000_000
  {
    if |waits| > 1 {
      WaitsAreShort(b0, waits[..|waits| - 1]);
      BackoffDoubles(b0, |waits| - 1);
    } else if |waits| == 1 {
      assert waits[..0] == [];
    }
  }

  /** All waits together, if the first backoff can be doubled. */
  ghost predicate WaitAtMost(b0: Duration, waits: seq<Duration>, max: int) {
    b0 <= MAX_DURATION / 2 ==> Sum(waits) <= b0 + (max - 1) * 5_000_000_000
  }

  /** At most max waits take at most b0 and five seconds for each further one. */
  lemma WaitsFit(b0: Duration, waits: seq<Duration>, max: int)
    requires 0 < b0 && 1 <= max && |waits| <= max
    requires forall i | 0 <= i < |waits| :: waits[i] == BackoffAt(b0, i)
    ensures WaitAtMost(b0, waits, max)
  {
    hide BackoffAt;
    if b0 <= MAX_DURATION / 2 {
      WaitsAreShort(b0, waits);
    }
  }

  lemma NextWait(b0: Duration, i: nat)
    ensures BackoffAt(b0, 0) == b0
    ensures BackoffAt(b0, i + 1) == if Wrap64(2 * BackoffAt(b0, i)) > BACKOFF_CAP then BACKOFF_CAP else Wrap64(2 * BackoffAt(b0, i))
  {
  }

  /** The first attempts failed, were not cancelled, and the context outlasted the waits after
      them. */
  predicate GoesOn(answer: nat -> Answer, ctxEnds: nat -> bool, attempts: int) {
    forall i | 0 <= i < attempts :: answer(i).Failed? && !answer(i).canceled && !ctxEnds(i)
  }

  /** How a save with at most max attempts ends: with the first attempt that succeeds, that is
      cancelled, or after which the context ends, or with the last one. */
  predicate EndsWith(answer: nat -> Answer, ctxEnds: nat -> bool, max: int, calls: int, result: Result) {
    && 1 <= calls <= max && GoesOn(answer, ctxEnds, calls - 1)
    && match answer(calls - 1)
       case Saved => result == Ok
       case Failed(_, canceled) =>
         if canceled then result == Error(answer(calls - 1))
         else if ctxEnds(calls - 1) then result == TimedOut
         else calls == max && result == Error(answer(calls - 1))
  }

  /** What the attempts answer and when the context ends leaves one end only. */
  lemma OneEnd(answer: nat -> Answer, ctxEnds: nat -> bool, max: int, calls: int, result: Result, others: int, other: Result)
    requires EndsWith(answer, ctxEnds, max, calls, result) && EndsWith(answer, ctxEnds, max, others, other)
    ensures calls == others && result == other
  {
    NotBefore(answer, ctxEnds, max, calls, result, others);
    NotBefore(answer, ctxEnds, max, others, other, calls);
  }

  lemma NotBefore(answer: nat -> Answer, ctxEnds: nat -> bool, max: int, calls: int, result: Result, others: int)
    requires EndsWith(answer, ctxEnds, max, calls, result) && others <= max && GoesOn(answer, ctxEnds, others - 1)
    ensures others <= calls
  {
  }

  /** After every attempt but one that succeeds or is cancelled there is a wait. */
  predicate WaitedAfter(answer: nat -> Answer, calls: nat, waits: seq<Duration>)
    requires calls > 0
  {
    |waits| == if answer(calls - 1).Saved? || answer(calls - 1).canceled then calls - 1 else calls
  }

  /** The persister. What its collaborators answer comes in as arguments: the drained
      snapshots, the answer of each save attempt, and whether the context ends in a wait. */
  class Persister {
    const batchSize: int
    const retryLimit: int
    const retryBackoff: Duration
    var latest: seq<Snapshot>
    var flushCount: nat
    var flushErrors: nat

    constructor (batchSize: int, retryLimit: int, retryBackoff: Duration)
      ensures latest == [] && flushCount == 0 && flushErrors == 0
      ensures this.batchSize == (if batchSize > 0 then batchSize else 500)
      ensures this.retryLimit == (if retryLimit > 0 then retryLimit else 3)
      ensures this.retryBackoff == (if retryBackoff > 0 then retryBackoff else 250_000_000)
    {
      this.batchSize := if batchSize > 0 then batchSize else 500;
      this.retryLimit := if retryLimit > 0 then retryLimit else 3;
      this.retryBackoff := if retryBackoff > 0 then retryBackoff else 250_000_000;
      latest, flushCount, flushErrors := [], 0, 0;
    }

    /** `collectBatch`. */
    method CollectBatch(drained: seq<Snapshot>) returns (batch: seq<Snapshot>)
      modifies this`latest
      ensures batch == Taken(old(latest), drained, batchSize)
      ensures latest == Left(old(latest), drained, batchSize)
    {
      var assets := latest + drained;
      latest := [];
      if batchSize > 0 && |assets| > batchSize {
        latest := assets[batchSize..];
        assets := assets[..batchSize];
      }
      batch := assets;
    }

    /** The first wait. */
    function FirstBackoff(): Duration { if retryBackoff <= 0 then DEFAULT_BACKOFF else retryBackoff }

    function MaxCalls(): int { if retryLimit <= 0 then 1 else retryLimit }

    /** `saveWithRetry`: `calls` counts the save attempts and `waits` lists the waits begun. */
    method SaveWithRetry(r: Repository, batch: seq<Snapshot>, answer: nat -> Answer, ctxEnds: nat -> bool)
      returns (result: Result, calls: nat, waits: seq<Duration>)
      requires batch != []
      modifies r
      ensures EndsWith(answer, ctxEnds, MaxCalls(), calls, result)
      ensures r.rows == if result.Ok? then SaveAll(old(r.rows), batch) else old(r.rows)
      ensures WaitedAfter(answer, calls, waits) && forall i | 0 <= i < |waits| :: waits[i] == BackoffAt(FirstBackoff(), i)
      ensures WaitAtMost(FirstBackoff(), waits, MaxCalls())
    {
      hide SaveAll, WaitAtMost, BackoffAt, Wrap64;
      NextWait(FirstBackoff(), 0);
      var backoff := if retryBackoff <= 0 then DEFAULT_BACKOFF else retryBackoff;
      var max := if retryLimit <= 0 then 1 else retryLimit;
      calls, waits := 0, [];
      var last := Saved;
      WaitsFit(FirstBackoff(), waits, MaxCalls());
      while calls < max
        invariant 0 <= calls <= max && |waits| == calls
        invariant r.rows == old(r.rows)
        invariant GoesOn(answer, ctxEnds, calls)
        invariant forall i | 0 <= i < |waits| :: waits[i] == BackoffAt(FirstBackoff(), i)
        invariant backoff == BackoffAt(FirstBackoff(), calls)
        invariant WaitAtMost(FirstBackoff(), waits, max)
        invariant calls > 0 ==> last == answer(calls - 1)
      {
        var err := answer(calls);
        var saved := r.SaveBatch(batch, if err.Saved? then None else Some(err.at));
        calls := calls + 1;
        if saved {
          return Ok, calls, waits;
        }
        last := err;
        if err.canceled {
          return Error(err), calls, waits;
        }
        waits := waits + [backoff];
        WaitsFit(FirstBackoff(), waits, MaxCalls());
        if ctxEnds(calls - 1) {
          return TimedOut, calls, waits;
        }
        NextWait(FirstBackoff(), calls - 1);
        backoff := Wrap64(2 * backoff);
        if backoff > BACKOFF_CAP {
          backoff := BACKOFF_CAP;
        }
      }
      result := Error(last);
    }

    /** `Flush`: an empty batch is not saved, and a batch whose save fails for good is not put
        back. `saved` is the batch handed to SaveBatch. */
    method Flush(r: Repository, drained: seq<Snapshot>, answer: nat -> Answer, ctxEnds: nat -> bool)
      returns (saved: seq<Snapshot>, result: Result)
      modifies this, r
      ensures saved == Taken(old(latest), drained, batchSize) && latest == Left(old(latest), drained, batchSize)
      ensures r.rows == if result.Ok? then SaveAll(old(r.rows), saved) else old(r.rows)
      ensures saved != [] ==> exists calls: int :: EndsWith(answer, ctxEnds, MaxCalls(), calls, result)
      ensures saved == [] ==> result == Ok && flushCount == old(flushCount) && flushErrors == old(flushErrors)
      ensures saved != [] && result.Ok? ==> flushCount == old(flushCount) + 1 && flushErrors == old(flushErrors)
      ensures saved != [] && !result.Ok? ==> flushCount == old(flushCount) && flushErrors == old(flushErrors) + 1
    {
      saved := CollectBatch(drained);
      if saved == [] {
        SaveNothing(r.rows);
        return saved, Ok;
      }
      var calls, waits;
      result, calls, waits := SaveWithRetry(r, saved, answer, ctxEnds);
      if result.Ok? {
        flushCount := flushCount + 1;
      } else {
        flushErrors := flushErrors + 1;
      }
    }
  }
}
