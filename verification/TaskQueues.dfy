/**
 The bounded FIFO task queue and the shared pending-result counters: as the
 objects the source mutates, and as the state transformers the scheduler model
 steps through.  Each method is proved against its transformer.
 */
module TaskQueues {
  import opened Basics

  datatype Queue = Queue(tasks: seq<nat>, closed: bool)

  datatype PushResult = Pushed | IsFull | Closed

  function TryPush(q: Queue, capacity: nat, task: nat): (PushResult, Queue) {
    if q.closed then (Closed, q)
    else if |q.tasks| >= capacity then (IsFull, q)
    else (PushResult.Pushed, q.(tasks := q.tasks + [task]))
  }

  function TryPushAll(q: Queue, capacity: nat, tasks: seq<nat>): (PushResult, Queue) {
    if q.closed then (Closed, q)
    else if |tasks| > Max(capacity - |q.tasks|, 0) then (IsFull, q)
    else (PushResult.Pushed, q.(tasks := q.tasks + tasks))
  }

  function PopFront(q: Queue): Queue
    requires q.tasks != []
  {
    q.(tasks := q.tasks[1..])
  }

  /**
   `TaskQueue`: a bounded deque of task ordinals and a closed flag, mutated under its
   mutex.  The ghost fields record every task that ever went in or came out.
   */
  class TaskQueue {
    const capacity: nat
    var tasks: seq<nat>
    var closed: bool
    ghost var entered: seq<nat>
    ghost var left: seq<nat>

    /** Bounded, and first in first out: what came out and what is waiting is what went in, in order. */
    ghost predicate Valid()
      reads this
    {
      1 <= capacity && |tasks| <= capacity && entered == left + tasks
    }

    ghost function Contents(): Queue
      reads this
    {
      Queue(tasks, closed)
    }

    constructor (requested: nat)
      ensures Valid() && capacity == Max(requested, 1)
      ensures Contents() == Queue([], false) && entered == left == []
    {
      capacity := if requested == 0 then 1 else requested;
      tasks, closed := [], false;
      entered, left := [], [];
    }

    /** A task enters exactly when the queue is open and has room; a refusal changes nothing. */
    method Push(task: nat) returns (r: PushResult)
      requires Valid()
      modifies this
      ensures Valid() && left == old(left) && closed == old(closed)
      ensures r == Closed <==> closed
      ensures r == PushResult.Pushed <==> !closed && |old(tasks)| < capacity
      ensures entered == old(entered) + if r == PushResult.Pushed then [task] else []
      ensures (r, Contents()) == TryPush(old(Contents()), capacity, task)
    {
      if closed {
        return Closed;
      }
      if |tasks| >= capacity {
        return IsFull;
      }
      tasks := tasks + [task];
      entered := entered + [task];
      return PushResult.Pushed;
    }

    /** A window enters whole, exactly when the queue is open and has room for all of it. */
    method PushAll(window: seq<nat>) returns (r: PushResult)
      requires Valid()
      modifies this
      ensures Valid() && left == old(left) && closed == old(closed)
      ensures r == Closed <==> closed
      ensures r == PushResult.Pushed <==> !closed && |old(tasks)| + |window| <= capacity
      ensures entered == old(entered) + if r == PushResult.Pushed then window else []
      ensures (r, Contents()) == TryPushAll(old(Contents()), capacity, window)
    {
      if closed {
        return Closed;
      }
      var room := if |tasks| <= capacity then capacity - |tasks| else 0;
      if |window| > room {
        return IsFull;
      }
      tasks := tasks + window;
      entered := entered + window;
      return PushResult.Pushed;
    }

    /** The non-blocking part of `pop`: the task that has waited longest, if there is one. */
    method TryPop() returns (task: Option<nat>)
      requires Valid()
      modifies this
      ensures Valid() && entered == old(entered) && closed == old(closed)
      ensures task == if |old(left)| < |entered| then Some(entered[|old(left)|]) else None
      ensures left == old(left) + if task.Some? then [task.value] else []
      ensures task.Some? ==> old(tasks) != [] && Contents() == PopFront(old(Contents()))
    {
      if tasks == [] {
        return None;
      }
      task := Some(tasks[0]);
      left := left + [tasks[0]];
      tasks := tasks[1..];
    }

    /** Closing refuses later tasks and keeps those waiting. */
    method Close()
      requires Valid()
      modifies this
      ensures Valid() && entered == old(entered) && left == old(left)
      ensures Contents() == old(Contents()).(closed := true)
    {
      closed := true;
    }
  }

  /** Counters of results prepared but not yet committed, with their high-water marks. */
  datatype Observations = Observations(
    pendingResults: nat,
    pendingRows: nat,
    maxPendingResults: nat,
    maxPendingRows: nat)

  function ResultCompleted(o: Observations, rows: nat): Observations {
    var pendingRows := WrappingAdd64(o.pendingRows, rows);
    var pendingResults := WrappingAdd64(o.pendingResults, 1);
    Observations(pendingResults, pendingRows,
                 Max(o.maxPendingResults, pendingResults),
                 Max(o.maxPendingRows, pendingRows))
  }

  function ResultCommitted(o: Observations, rows: nat): Observations {
    o.(pendingRows := WrappingSub64(o.pendingRows, rows),
       pendingResults := WrappingSub64(o.pendingResults, 1))
  }

  /** The largest of the values seen, 0 before any. */
  ghost predicate IsPeak(peak: nat, seen: seq<nat>) {
    && (forall i :: 0 <= i < |seen| ==> seen[i] <= peak)
    && (peak == 0 || peak in seen)
  }

  lemma PeakExtends(peak: nat, seen: seq<nat>, x: nat)
    requires IsPeak(peak, seen)
    ensures IsPeak(Max(peak, x), seen + [x])
  {
    assert (seen + [x])[|seen|] == x;
    if peak > x {
      var i :| 0 <= i < |seen| && seen[i] == peak;
      assert (seen + [x])[i] == peak;
    }
  }

  /** `observe_max_u64`. */
  method ObserveMax(observed: nat, value: nat) returns (peak: nat)
    ensures peak == Max(observed, value)
  {
    peak := observed;
    if value > observed {
      peak := value;
    }
  }

  /**
   `SharedObservations`: the counters as atomics that wrap.  The ghost fields are the
   unbounded totals, and the pending values each completion left.
   */
  class SharedObservations {
    var pendingResults: nat
    var pendingRows: nat
    var maxPendingResults: nat
    var maxPendingRows: nat
    ghost var results: int
    ghost var rows: int
    ghost var seenResults: seq<nat>
    ghost var seenRows: seq<nat>

    /**
     The counters hold the true differences modulo 2^64, so exactly whenever those are
     in range, and each peak is the largest value any completion left.
     */
    ghost predicate Valid()
      reads this
    {
      && pendingResults == results % U64_LIMIT && pendingRows == rows % U64_LIMIT
      && IsPeak(maxPendingResults, seenResults) && IsPeak(maxPendingRows, seenRows)
    }

    ghost function Contents(): Observations
      reads this
    {
      Observations(pendingResults, pendingRows, maxPendingResults, maxPendingRows)
    }

    constructor ()
      ensures Valid() && results == rows == 0 && seenResults == seenRows == []
      ensures Contents() == Observations(0, 0, 0, 0)
    {
      pendingResults, pendingRows, maxPendingResults, maxPendingRows := 0, 0, 0, 0;
      results, rows, seenResults, seenRows := 0, 0, [], [];
    }

    /** One more pending result; exact while the true totals fit 64 bits. */
    method Completed(n: nat)
      requires Valid()
      modifies this
      ensures Valid() && results == old(results) + 1 && rows == old(rows) + n
      ensures 0 <= results < U64_LIMIT ==> pendingResults == results
      ensures 0 <= rows < U64_LIMIT ==> pendingRows == rows
      ensures seenResults == old(seenResults) + [pendingResults] && seenRows == old(seenRows) + [pendingRows]
      ensures maxPendingResults >= old(maxPendingResults) && maxPendingRows >= old(maxPendingRows)
      ensures Contents() == ResultCompleted(old(Contents()), n)
    {
      Wraps(rows, n);
      Wraps(results, 1);
      pendingRows := WrappingAdd64(pendingRows, n);
      pendingResults := WrappingAdd64(pendingResults, 1);
      results, rows := results + 1, rows + n;
      assert pendingResults == results % U64_LIMIT && pendingRows == rows % U64_LIMIT;
      Peaks();
    }

    /** Both peaks brought up to the pending values. */
    method Peaks()
      requires Valid()
      modifies this`maxPendingResults, this`maxPendingRows, this`seenResults, this`seenRows
      ensures Valid()
      ensures seenResults == old(seenResults) + [pendingResults] && seenRows == old(seenRows) + [pendingRows]
      ensures maxPendingResults == Max(old(maxPendingResults), pendingResults)
      ensures maxPendingRows == Max(old(maxPendingRows), pendingRows)
    {
      PeakExtends(maxPendingResults, seenResults, pendingResults);
      PeakExtends(maxPendingRows, seenRows, pendingRows);
      maxPendingResults := ObserveMax(maxPendingResults, pendingResults);
      maxPendingRows := ObserveMax(maxPendingRows, pendingRows);
      seenResults, seenRows := seenResults + [pendingResults], seenRows + [pendingRows];
    }

    /** One pending result fewer; undoes a completion of as many rows, peaks aside. */
    method Committed(n: nat)
      requires Valid()
      modifies this
      ensures Valid() && results == old(results) - 1 && rows == old(rows) - n
      ensures 0 <= results < U64_LIMIT ==> pendingResults == results
      ensures 0 <= rows < U64_LIMIT ==> pendingRows == rows
      ensures seenResults == old(seenResults) && seenRows == old(seenRows)
      ensures maxPendingResults == old(maxPendingResults) && maxPendingRows == old(maxPendingRows)
      ensures Contents() == ResultCommitted(old(Contents()), n)
    {
      Wraps(rows, n);
      Wraps(results, 1);
      pendingRows := WrappingSub64(pendingRows, n);
      pendingResults := WrappingSub64(pendingResults, 1);
      results, rows := results - 1, rows - n;
    }
  }
}
